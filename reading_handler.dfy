// Periodic reading of a device's registers
// (miniserver_gateway/connectors/fb_bus/handlers/reading_handler.py).
//
// A RUNNING device is polled once per sampling period. The device's reading
// pointer (an address and a register type) says where the next request
// starts; a request asks for as many registers of one type as fit in one
// packet, and the reading pointer sweeps DI, DO, AI, AO in that order. The reply
// carries the values: one bit per digital register, four bytes per analog
// register.

module FbBusReadingHandler {
  import opened Common
  import opened FbBusTypes
  import opened FbBusDevice
  import opened FbBusRegister
  import opened FbBusConnector
  import FbBusHelpers
  import GT = GatewayTypes

  /** `__READING_DELAY`: 0.5 s must pass after an unanswered packet. */
  const ReadingDelay: int := 500

  /** How many registers of each type a device has. */
  datatype Counts = Counts(digitalIn: nat, digitalOut: nat, analogIn: nat, analogOut: nat)

  function CountOf(c: Counts, t: RegisterType): nat
  {
    match t
    case DI => c.digitalIn
    case DO => c.digitalOut
    case AI => c.analogIn
    case AO => c.analogOut
  }

  /** The counts `get_registers_by_type` gives for a device. */
  function CountsOf(rs: seq<Register>, deviceId: Uuid): Counts
  {
    Counts(|RegistersOf(rs, deviceId, DI)|, |RegistersOf(rs, deviceId, DO)|,
           |RegistersOf(rs, deviceId, AI)|, |RegistersOf(rs, deviceId, AO)|)
  }

  /** The reading order DI, DO, AI, AO. */
  function Rank(t: RegisterType): nat
  {
    match t
    case DI => 0
    case DO => 1
    case AI => 2
    case AO => 3
  }

  function Min(a: int, b: int): int
  {
    if a <= b then a else b
  }

  // ---------------------------------------------------------------------------
  // Requests

  /** `__update_reading_pointer`: the first non-empty type after the current one. */
  function NextReadingType(t: Option<RegisterType>, c: Counts): (r: Option<RegisterType>)
    ensures r.Some? ==> t.Some? && Rank(t.value) < Rank(r.value) && CountOf(c, r.value) > 0
    ensures r.Some? ==> forall u :: Rank(t.value) < Rank(u) < Rank(r.value) ==> CountOf(c, u) == 0
    ensures r.None? <==> t.None? || forall u :: Rank(t.value) < Rank(u) ==> CountOf(c, u) == 0
  {
    match t
    case None => None
    case Some(current) =>
      match current
      case DI =>
        if c.digitalOut > 0 then Some(DO)
        else if c.analogIn > 0 then Some(AI)
        else if c.analogOut > 0 then Some(AO)
        else None
      case DO =>
        if c.analogIn > 0 then Some(AI)
        else if c.analogOut > 0 then Some(AO)
        else None
      case AI =>
        if c.analogOut > 0 then Some(AO) else None
      case AO => None
  }

  /**
   * The reading pointer after `__update_reading_pointer`: the start of the next
   * non-empty type, or cleared with the reading time set to now.
   */
  function AdvancedPointer(v: DeviceView, c: Counts, now: int): DeviceView
  {
    match NextReadingType(v.readingRegisterType, c)
    case Some(u) => v.(readingRegisterAddress := Some(0), readingRegisterType := Some(u))
    case None => v.(readingRegistersTimestamp := now, readingRegisterAddress := None, readingRegisterType := None)
  }

  /** Registers per packet: eight per data byte for digital types, one per four bytes for analog ones. */
  function Capacity(t: RegisterType, maxPacketLength: int): int
  {
    if t == DI || t == DO then (maxPacketLength - 7) * 8 else (maxPacketLength - 7) / 4
  }

  /** The read length of `__read_multiple_registers`: what fits, but no more than is left. */
  function ReadLength(capacity: int, size: int, start: int): (length: int)
    ensures length == Min(capacity, size - start)
  {
    var maxReadableAddress := start + capacity - 1;
    if maxReadableAddress + 1 >= size then
      (if start == 0 then size else size - start)
    else capacity
  }

  /** A request for `length` registers of type `t` from `start`; the reading pointer then moves to `next`. */
  datatype Request = Request(t: RegisterType, start: int, length: int, next: int)

  /** The request `__read_multiple_registers` sends, or None when the length is not positive. */
  function PlannedRequest(t: RegisterType, start: Option<int>, maxPacketLength: int, c: Counts): Option<Request>
  {
    var s := if start.Some? then start.value else 0;
    var length := ReadLength(Capacity(t, maxPacketLength), CountOf(c, t), s);
    if length <= 0 then None else Some(Request(t, s, length, s + length))
  }

  /** `__read_handler`: the first non-empty type the reading pointer is on, or any when the reading pointer is clear. */
  function ReadTypeChoice(pointer: Option<RegisterType>, c: Counts): (r: Option<RegisterType>)
    ensures r.Some? ==> CountOf(c, r.value) > 0 && (pointer.None? || pointer == r)
    ensures r.None? <==> forall u :: CountOf(c, u) > 0 ==> pointer.Some? && pointer.value != u
    ensures pointer.None? && r.Some? ==> forall u :: Rank(u) < Rank(r.value) ==> CountOf(c, u) == 0
  {
    if c.digitalIn > 0 && (pointer.None? || pointer == Some(DI)) then Some(DI)
    else if c.digitalOut > 0 && (pointer.None? || pointer == Some(DO)) then Some(DO)
    else if c.analogIn > 0 && (pointer.None? || pointer == Some(AI)) then Some(AI)
    else if c.analogOut > 0 && (pointer.None? || pointer == Some(AO)) then Some(AO)
    else None
  }

  /** The polling condition of `handle`. */
  predicate ReadDue(v: DeviceView, now: int)
  {
    (v.waitingForPacket.None? || now - v.lastPacketTimestamp >= ReadingDelay) &&
    now - v.readingRegistersTimestamp >= SamplingTime
  }

  /** The request `handle` sends to a device, if any. */
  function HandleRequest(v: DeviceView, c: Counts, now: int): Option<Request>
  {
    if v.state != GT.Running || !ReadDue(v, now) then None
    else
      match ReadTypeChoice(v.readingRegisterType, c)
      case None => None
      case Some(t) => PlannedRequest(t, v.readingRegisterAddress, v.maxPacketLength, c)
  }

  /** The bytes of a request: packet id, type, start and length high byte first, terminator. */
  function RequestBytes(q: Request): (p: seq<int>)
    ensures |p| == 7 && p[0] == PacketCode(ReadMultipleRegisters) && p[1] == RegisterTypeCode(q.t) && p[6] == Terminator
  {
    [PacketCode(ReadMultipleRegisters), RegisterTypeCode(q.t), HighByte(q.start), LowByte(q.start),
     HighByte(q.length), LowByte(q.length), Terminator]
  }

  /** A device reading the request gets back the start address and the length. */
  lemma RequestBytesDecode(q: Request)
    requires 0 <= q.start < 65536 && 0 <= q.length < 65536
    ensures var p := RequestBytes(q);
            (forall i :: 0 <= i < 7 ==> 0 <= p[i] < 256) &&
            Word(p[2], p[3]) == q.start && Word(p[4], p[5]) == q.length
  {
    WordRoundTrip(q.start);
    WordRoundTrip(q.length);
  }

  function PacketOf(q: Option<Request>): Option<seq<int>>
  {
    match q
    case None => None
    case Some(r) => Some(RequestBytes(r))
  }

  /** The device once a request went out (or failed to). */
  function AfterRequest(v: DeviceView, q: Request, c: Counts, now: int, sendOk: bool): DeviceView
  {
    if sendOk then
      var w := v.(waitingForPacket := Some(ReadMultipleRegisters), lastPacketTimestamp := now,
                  attempts := v.attempts + 1, readingRegisterAddress := Some(q.next), readingRegisterType := Some(q.t));
      if q.next + 1 > CountOf(c, q.t) then AdvancedPointer(w, c, now) else w
    else ResetCommunication(v)
  }

  function HandleView(v: DeviceView, c: Counts, now: int, sendOk: bool): DeviceView
  {
    match HandleRequest(v, c, now)
    case None => v
    case Some(q) => AfterRequest(v, q, c, now, sendOk)
  }

  // ---------------------------------------------------------------------------
  // Properties of the requests

  /**
   * A request never reaches past the registers of its type and never asks
   * for more than one packet holds.
   */
  lemma RequestWithinRegisters(t: RegisterType, start: Option<int>, maxPacketLength: int, c: Counts)
    requires start.None? || start.value >= 0
    ensures var q := PlannedRequest(t, start, maxPacketLength, c);
            q.Some? ==> 0 <= q.value.start < q.value.next <= CountOf(c, t) &&
                        0 < q.value.length <= Capacity(t, maxPacketLength)
  {
  }

  /**
   * Every request sent moves the reading pointer forward: further along the
   * same type, to the start of a later type, or it clears the reading pointer so
   * that the next period starts a new sweep.
   */
  lemma ReadingPointerProgress(v: DeviceView, c: Counts, now: int)
    requires v.readingRegisterAddress.None? || v.readingRegisterAddress.value >= 0
    requires HandleRequest(v, c, now).Some?
    ensures var q := HandleRequest(v, c, now).value;
            var w := HandleView(v, c, now, true);
            (w.readingRegisterType == Some(q.t) && w.readingRegisterAddress == Some(q.next) && q.next > q.start) ||
            (w.readingRegisterType.Some? && Rank(w.readingRegisterType.value) > Rank(q.t) &&
             w.readingRegisterAddress == Some(0)) ||
            (w.readingRegisterType.None? && w.readingRegisterAddress.None? && w.readingRegistersTimestamp == now)
  {
  }

  /** A request only goes to a RUNNING device whose sampling period has passed. */
  lemma RequestOnlyWhenDue(v: DeviceView, c: Counts, now: int)
    requires HandleRequest(v, c, now).Some?
    ensures v.state == GT.Running && now - v.readingRegistersTimestamp >= SamplingTime
    ensures HandleView(v, c, now, true).attempts == v.attempts + 1
    ensures HandleView(v, c, now, true).waitingForPacket == Some(ReadMultipleRegisters)
    ensures HandleView(v, c, now, false) == ResetCommunication(v)
  {
  }

  // ---------------------------------------------------------------------------
  // Values carried by a reply

  /** One assignment the receiver makes: a bit to a digital register or four bytes to an analog one. */
  datatype Write = BitWrite(address: int, bit: bool) | WordWrite(address: int, bytes: seq<Byte>)

  /** Bit i, least significant first, as the source reads it from the reversed binary numeral. */
  function Bit(b: nat, i: nat): bool
  {
    if i == 0 then b % 2 == 1 else Bit(b / 2, i - 1)
  }

  /** Bits the inner loop of the digital receiver writes before its `break`. */
  function BitsTaken(address: int, count: int): (n: nat)
    ensures 1 <= n <= 8
  {
    if count - address >= 8 then 8 else if count - address >= 1 then count - address else 1
  }

  function ByteWrites(b: Byte, address: int, n: nat): (ws: seq<Write>)
    ensures |ws| == n
  {
    seq(n, i requires 0 <= i < n => BitWrite(address + i, Bit(b, i)))
  }

  lemma ByteWritesSnoc(b: Byte, address: int, n: nat)
    ensures ByteWrites(b, address, n + 1) == ByteWrites(b, address, n) + [BitWrite(address + n, Bit(b, n))]
  {
  }

  /** The writes of a digital reply from data byte `pos` on. */
  function DigitalWrites(p: seq<Byte>, pos: nat, address: int, count: int): seq<Write>
    decreases |p| - pos
  {
    if pos + 1 >= |p| then []
    else
      var n := BitsTaken(address, count);
      ByteWrites(p[pos], address, n) + DigitalWrites(p, pos + 1, address + n, count)
  }

  /** After the writes `done`, one more data byte moves its bits from the writes to come to the writes done. */
  lemma DigitalWritesStep(done: seq<Write>, p: seq<Byte>, pos: nat, address: int, count: int)
    requires pos + 1 < |p|
    ensures var n := BitsTaken(address, count);
            done + DigitalWrites(p, pos, address, count) ==
            (done + ByteWrites(p[pos], address, n)) + DigitalWrites(p, pos + 1, address + n, count)
  {
    var n := BitsTaken(address, count);
    assert DigitalWrites(p, pos, address, count) == ByteWrites(p[pos], address, n) + DigitalWrites(p, pos + 1, address + n, count);
  }

  /** The writes of an analog reply from byte `pos` on: four bytes per register. */
  function AnalogWrites(p: seq<Byte>, pos: nat, address: int): seq<Write>
    decreases |p| - pos
  {
    if pos + 3 >= |p| - 1 then []
    else [WordWrite(address, p[pos..pos + 4])] + AnalogWrites(p, pos + 4, address + 1)
  }

  /** After the writes `done`, one more group of four bytes moves from the writes to come to the writes done. */
  lemma AnalogWritesStep(done: seq<Write>, p: seq<Byte>, pos: nat, address: int)
    requires pos + 3 < |p| - 1
    ensures done + AnalogWrites(p, pos, address) ==
            (done + [WordWrite(address, p[pos..pos + 4])]) + AnalogWrites(p, pos + 4, address + 1)
  {
    assert AnalogWrites(p, pos, address) == [WordWrite(address, p[pos..pos + 4])] + AnalogWrites(p, pos + 4, address + 1);
  }

  /** The value a write gives a register of the given data type; None when it is not decodable. */
  function WrittenValue(w: Write, dataType: DataType): Option<Value>
  {
    match w
    case BitWrite(_, b) => Some(VBool(b))
    case WordWrite(_, bytes) =>
      match FbBusHelpers.TransformValueFromBytes(dataType, bytes)
      case Decoded(v) => Some(v)
      case _ => None
  }

  /**
   * The value register `x` (of data type `dataType`) holds after one write,
   * given value `v` before: the write goes to the register
   * `get_register_by_address` finds for its address.
   */
  function ValueAfterWrite(w: Write, rs: seq<Register>, deviceId: Uuid, t: RegisterType,
                           x: Register, dataType: DataType, v: Value): Value
  {
    if RegisterAt(rs, deviceId, t, w.address) == Some(x) && WrittenValue(w, dataType).Some? then
      WrittenValue(w, dataType).value
    else v
  }

  /** The value of register `x` after the writes in order, `v0` before. */
  function ValueAfter(ws: seq<Write>, rs: seq<Register>, deviceId: Uuid, t: RegisterType,
                      x: Register, dataType: DataType, v0: Value): Value
  {
    if ws == [] then v0
    else ValueAfterWrite(ws[|ws| - 1], rs, deviceId, t, x, dataType, ValueAfter(ws[..|ws| - 1], rs, deviceId, t, x, dataType, v0))
  }

  lemma ValueAfterSnoc(ws: seq<Write>, w: Write, rs: seq<Register>, deviceId: Uuid,
                       t: RegisterType, x: Register, dataType: DataType, v0: Value)
    ensures ValueAfter(ws + [w], rs, deviceId, t, x, dataType, v0) ==
            ValueAfterWrite(w, rs, deviceId, t, x, dataType, ValueAfter(ws, rs, deviceId, t, x, dataType, v0))
  {
    assert (ws + [w])[..|ws|] == ws;
  }

  lemma {:induction false} ValueAfterConcat(a: seq<Write>, b: seq<Write>, rs: seq<Register>, deviceId: Uuid,
                                            t: RegisterType, x: Register, dataType: DataType, v0: Value)
    ensures ValueAfter(a + b, rs, deviceId, t, x, dataType, v0) ==
            ValueAfter(b, rs, deviceId, t, x, dataType, ValueAfter(a, rs, deviceId, t, x, dataType, v0))
  {
    if b == [] {
      assert a + b == a;
    } else {
      assert (a + b)[..|a + b| - 1] == a + b[..|b| - 1];
      ValueAfterConcat(a, b[..|b| - 1], rs, deviceId, t, x, dataType, v0);
    }
  }

  /** The data type of each register. */
  function TypesOf(rs: seq<Register>): map<Register, DataType>
    reads rs`dataType
  {
    map x | x in rs :: x.dataType
  }

  /** The value of each register. */
  function ValuesOf(rs: seq<Register>): map<Register, Value>
    reads rs`value
  {
    map x | x in rs :: x.value
  }

  /**
   * The storage call `update_register_value` forwards for one write: the
   * register found for its address, the decoded value and the value the
   * register held (`values`); none when no register is found or the bytes
   * are not decodable for its data type (`types`).
   */
  function StorageCallOf(w: Write, rs: seq<Register>, deviceId: Uuid, t: RegisterType,
                         types: map<Register, DataType>, values: map<Register, Value>): seq<ContainerCall>
  {
    match RegisterAt(rs, deviceId, t, w.address)
    case None => []
    case Some(x) =>
      if x in types && x in values && WrittenValue(w, types[x]).Some? then
        [PropertyToStorage(x.id, WrittenValue(w, types[x]).value, values[x])]
      else []
  }

  /** The storage calls of the writes in order, each with the value its register held in `values`. */
  function StorageCalls(ws: seq<Write>, rs: seq<Register>, deviceId: Uuid, t: RegisterType,
                        types: map<Register, DataType>, values: map<Register, Value>): seq<ContainerCall>
  {
    if ws == [] then []
    else StorageCalls(ws[..|ws| - 1], rs, deviceId, t, types, values) +
         StorageCallOf(ws[|ws| - 1], rs, deviceId, t, types, values)
  }

  lemma {:induction false} StorageCallsConcat(a: seq<Write>, b: seq<Write>, rs: seq<Register>, deviceId: Uuid,
                                              t: RegisterType, types: map<Register, DataType>,
                                              values: map<Register, Value>)
    ensures StorageCalls(a + b, rs, deviceId, t, types, values) ==
            StorageCalls(a, rs, deviceId, t, types, values) + StorageCalls(b, rs, deviceId, t, types, values)
  {
    if b == [] {
      assert a + b == a;
    } else {
      assert (a + b)[..|a + b| - 1] == a + b[..|b| - 1];
      StorageCallsConcat(a, b[..|b| - 1], rs, deviceId, t, types, values);
    }
  }

  /** A register no write addresses keeps its value. */
  lemma {:induction false} ValueAfterUntouched(ws: seq<Write>, rs: seq<Register>, deviceId: Uuid, t: RegisterType,
                                               x: Register, dataType: DataType, v0: Value)
    requires forall i :: 0 <= i < |ws| ==> ws[i].address != x.address
    ensures ValueAfter(ws, rs, deviceId, t, x, dataType, v0) == v0
  {
    if ws != [] {
      ValueAfterUntouched(ws[..|ws| - 1], rs, deviceId, t, x, dataType, v0);
    }
  }

  /** `now` holds, for every register, its value in `v0` after the writes done. */
  ghost predicate ValuesAfterDone(done: seq<Write>, rs: seq<Register>, deviceId: Uuid, t: RegisterType,
                                  types: map<Register, DataType>, v0: map<Register, Value>, now: map<Register, Value>)
  {
    forall x :: x in rs ==> x in types && x in v0 && x in now &&
                            now[x] == ValueAfter(done, rs, deviceId, t, x, types[x], v0[x])
  }

  /**
   * Writes to addresses above those already done see the registers'
   * values from before the done writes: the receiver forwards, with each
   * value, the one the register held before the reply.
   */
  lemma {:induction false} StorageCallsAfter(done: seq<Write>, ws: seq<Write>, rs: seq<Register>, deviceId: Uuid,
                                             t: RegisterType, types: map<Register, DataType>,
                                             v0: map<Register, Value>, now: map<Register, Value>)
    requires ValuesAfterDone(done, rs, deviceId, t, types, v0, now)
    requires forall i, j :: 0 <= i < |done| && 0 <= j < |ws| ==> done[i].address < ws[j].address
    ensures StorageCalls(ws, rs, deviceId, t, types, now) == StorageCalls(ws, rs, deviceId, t, types, v0)
    ensures StorageCalls(done + ws, rs, deviceId, t, types, v0) ==
            StorageCalls(done, rs, deviceId, t, types, v0) + StorageCalls(ws, rs, deviceId, t, types, now)
  {
    if ws != [] {
      var w := ws[|ws| - 1];
      StorageCallsAfter(done, ws[..|ws| - 1], rs, deviceId, t, types, v0, now);
      match RegisterAt(rs, deviceId, t, w.address)
      case None =>
      case Some(x) =>
        ValueAfterUntouched(done, rs, deviceId, t, x, types[x], v0[x]);
    }
    StorageCallsConcat(done, ws, rs, deviceId, t, types, v0);
  }

  /** The writes a reply makes, by register type. */
  function ReplyWrites(p: seq<Byte>, t: RegisterType, start: int, count: int): seq<Write>
  {
    if t == DI || t == DO then DigitalWrites(p, 5, start, count) else AnalogWrites(p, 5, start)
  }

  // ---------------------------------------------------------------------------
  // Properties of the replies

  /** Write addresses strictly increase, from the start address on. */
  predicate AddressesIncrease(ws: seq<Write>, from: int)
  {
    (forall i :: 0 <= i < |ws| ==> ws[i].address >= from) &&
    (forall i, j :: 0 <= i < j < |ws| ==> ws[i].address < ws[j].address)
  }

  lemma {:induction false} DigitalAddressesIncrease(p: seq<Byte>, pos: nat, address: int, count: int)
    ensures AddressesIncrease(DigitalWrites(p, pos, address, count), address)
    decreases |p| - pos
  {
    if pos + 1 < |p| {
      var n := BitsTaken(address, count);
      DigitalAddressesIncrease(p, pos + 1, address + n, count);
      var a := ByteWrites(p[pos], address, n);
      var b := DigitalWrites(p, pos + 1, address + n, count);
      assert forall i :: 0 <= i < |a| ==> a[i].address == address + i;
      var ws := a + b;
      forall i, j | 0 <= i < j < |ws|
        ensures ws[i].address < ws[j].address
      {
        if j < |a| {
        } else if i < |a| {
          assert ws[j] == b[j - |a|];
        } else {
          assert ws[i] == b[i - |a|] && ws[j] == b[j - |a|];
        }
      }
    }
  }

  lemma {:induction false} AnalogAddressesIncrease(p: seq<Byte>, pos: nat, address: int)
    ensures AddressesIncrease(AnalogWrites(p, pos, address), address)
    ensures |AnalogWrites(p, pos, address)| > 0 ==> pos + 4 * |AnalogWrites(p, pos, address)| < |p|
    ensures forall i :: 0 <= i < |AnalogWrites(p, pos, address)| ==>
              AnalogWrites(p, pos, address)[i] == WordWrite(address + i, p[pos + 4 * i..pos + 4 * i + 4])
    decreases |p| - pos
  {
    if pos + 3 < |p| - 1 {
      AnalogAddressesIncrease(p, pos + 4, address + 1);
      var ws := AnalogWrites(p, pos, address);
      var b := AnalogWrites(p, pos + 4, address + 1);
      assert ws == [WordWrite(address, p[pos..pos + 4])] + b;
      forall i | 0 < i < |ws|
        ensures ws[i] == WordWrite(address + i, p[pos + 4 * i..pos + 4 * i + 4])
      {
        assert ws[i] == b[i - 1];
        assert pos + 4 + 4 * (i - 1) == pos + 4 * i;
      }
    }
  }

  /**
   * In a digital reply, the register at `start + 8k + i` below the register
   * count receives bit i (least significant first) of data byte k.
   */
  lemma {:induction false} DigitalWriteOfAddress(p: seq<Byte>, pos: nat, address: int, count: int, a: int)
    requires address <= a < count
    requires pos + (a - address) / 8 + 1 < |p|
    ensures BitWrite(a, Bit(p[pos + (a - address) / 8], (a - address) % 8)) in DigitalWrites(p, pos, address, count)
    decreases |p| - pos
  {
    var n := BitsTaken(address, count);
    var ws := ByteWrites(p[pos], address, n);
    if a - address < 8 {
      assert a - address < n;
      assert ws[a - address] == BitWrite(a, Bit(p[pos], a - address));
    } else {
      assert n == 8;
      assert (a - (address + 8)) / 8 == (a - address) / 8 - 1;
      assert (a - (address + 8)) % 8 == (a - address) % 8;
      DigitalWriteOfAddress(p, pos + 1, address + 8, count, a);
    }
  }

  /** With distinct write addresses, a register receives the one write made to its own address. */
  lemma {:induction false} ValueAfterTheWrite(ws: seq<Write>, rs: seq<Register>, deviceId: Uuid, t: RegisterType,
                                              x: Register, dataType: DataType, v0: Value, w: Write)
    requires forall i, j :: 0 <= i < j < |ws| ==> ws[i].address < ws[j].address
    requires w in ws && RegisterAt(rs, deviceId, t, w.address) == Some(x)
    ensures ValueAfter(ws, rs, deviceId, t, x, dataType, v0) ==
            if WrittenValue(w, dataType).Some? then WrittenValue(w, dataType).value
            else ValueAfter(ws, rs, deviceId, t, x, dataType, v0)
    ensures WrittenValue(w, dataType).Some? ==> ValueAfter(ws, rs, deviceId, t, x, dataType, v0) == WrittenValue(w, dataType).value
  {
    var last := ws[|ws| - 1];
    if last != w {
      var k :| 0 <= k < |ws| && ws[k] == w;
      assert k < |ws| - 1;
      assert ws[..|ws| - 1][k] == w;
      assert last.address != w.address;
      ValueAfterTheWrite(ws[..|ws| - 1], rs, deviceId, t, x, dataType, v0, w);
    }
  }

  /** Registers of other devices or other types keep their value. */
  lemma {:induction false} ValueAfterOtherRegister(ws: seq<Write>, rs: seq<Register>, deviceId: Uuid, t: RegisterType,
                                                   x: Register, dataType: DataType, v0: Value)
    requires x.deviceId != deviceId || x.registerType != t
    ensures ValueAfter(ws, rs, deviceId, t, x, dataType, v0) == v0
  {
    if ws != [] {
      ValueAfterOtherRegister(ws[..|ws| - 1], rs, deviceId, t, x, dataType, v0);
    }
  }

  /**
   * The digital reply sets the register found at address a (below the
   * register count and covered by the data bytes) to its bit.
   */
  lemma DigitalReplySetsBit(p: seq<Byte>, rs: seq<Register>, deviceId: Uuid, t: RegisterType,
                            start: int, count: int, a: int, x: Register, dataType: DataType, v0: Value)
    requires start <= a < count && 5 + (a - start) / 8 + 1 < |p|
    requires RegisterAt(rs, deviceId, t, a) == Some(x)
    ensures ValueAfter(DigitalWrites(p, 5, start, count), rs, deviceId, t, x, dataType, v0) ==
            VBool(Bit(p[5 + (a - start) / 8], (a - start) % 8))
  {
    DigitalAddressesIncrease(p, 5, start, count);
    DigitalWriteOfAddress(p, 5, start, count, a);
    ValueAfterTheWrite(DigitalWrites(p, 5, start, count), rs, deviceId, t, x, dataType, v0,
                       BitWrite(a, Bit(p[5 + (a - start) / 8], (a - start) % 8)));
  }

  /**
   * The analog reply gives the register found at address `start + k` the
   * decoded k-th group of four bytes, and leaves it alone when the group is
   * not decodable for its data type.
   */
  lemma AnalogReplySetsWord(p: seq<Byte>, rs: seq<Register>, deviceId: Uuid, t: RegisterType,
                            start: int, k: nat, x: Register, dataType: DataType, v0: Value)
    requires 5 + 4 * k + 4 < |p|
    requires RegisterAt(rs, deviceId, t, start + k) == Some(x)
    ensures var bytes := p[5 + 4 * k..5 + 4 * k + 4];
            ValueAfter(AnalogWrites(p, 5, start), rs, deviceId, t, x, dataType, v0) ==
            match FbBusHelpers.TransformValueFromBytes(dataType, bytes)
            case Decoded(v) => v
            case _ => ValueAfter(AnalogWrites(p, 5, start), rs, deviceId, t, x, dataType, v0)
  {
    AnalogAddressesIncrease(p, 5, start);
    var ws := AnalogWrites(p, 5, start);
    AnalogLength(p, 5, start, k);
    assert ws[k] == WordWrite(start + k, p[5 + 4 * k..5 + 4 * k + 4]);
    ValueAfterTheWrite(ws, rs, deviceId, t, x, dataType, v0, ws[k]);
  }

  lemma {:induction false} AnalogLength(p: seq<Byte>, pos: nat, address: int, k: nat)
    requires pos + 4 * k + 4 < |p|
    ensures k < |AnalogWrites(p, pos, address)|
    decreases k
  {
    if k > 0 {
      AnalogLength(p, pos + 4, address + 1, k - 1);
    }
  }

  // ---------------------------------------------------------------------------
  // The handler

  /** `handle`: poll a RUNNING device whose sampling period has passed. */
  method Handle(conn: Connector, device: Device, now: int, sendOk: bool) returns (packet: Option<seq<int>>)
    modifies device
    ensures device.View() == HandleView(old(device.View()), CountsOf(conn.registers, device.id), now, sendOk)
    ensures packet == PacketOf(HandleRequest(old(device.View()), CountsOf(conn.registers, device.id), now))
  {
    if !device.IsReady() {
      return None;
    }
    if (device.waitingForPacket.None? || now - device.lastPacketTimestamp >= ReadingDelay) &&
       now - device.readingRegistersTimestamp >= SamplingTime {
      packet := ReadHandler(conn, device, now, sendOk);
    } else {
      packet := None;
    }
  }

  /** `__read_handler`: read the type the reading pointer is on. */
  method ReadHandler(conn: Connector, device: Device, now: int, sendOk: bool) returns (packet: Option<seq<int>>)
    modifies device
    ensures var c := CountsOf(conn.registers, device.id);
            var v := old(device.View());
            match ReadTypeChoice(v.readingRegisterType, c)
            case None => device.View() == v && packet.None?
            case Some(t) =>
              var q := PlannedRequest(t, v.readingRegisterAddress, v.maxPacketLength, c);
              packet == PacketOf(q) &&
              device.View() == (if q.Some? then AfterRequest(v, q.value, c, now, sendOk) else v)
  {
    var pointer := device.readingRegisterType;
    var address := device.readingRegisterAddress;
    var di := conn.GetRegistersByType(device, DI);
    var dOut := conn.GetRegistersByType(device, DO);
    var ai := conn.GetRegistersByType(device, AI);
    var ao := conn.GetRegistersByType(device, AO);
    if |di| > 0 && (pointer == Some(DI) || pointer.None?) {
      packet := ReadMultiple(conn, device, DI, address, now, sendOk);
    } else if |dOut| > 0 && (pointer == Some(DO) || pointer.None?) {
      packet := ReadMultiple(conn, device, DO, address, now, sendOk);
    } else if |ai| > 0 && (pointer == Some(AI) || pointer.None?) {
      packet := ReadMultiple(conn, device, AI, address, now, sendOk);
    } else if |ao| > 0 && (pointer == Some(AO) || pointer.None?) {
      packet := ReadMultiple(conn, device, AO, address, now, sendOk);
    } else {
      packet := None;
    }
  }

  /** `__read_multiple_registers`: build and send one request, then move the reading pointer. */
  method ReadMultiple(conn: Connector, device: Device, t: RegisterType, start: Option<int>,
                               now: int, sendOk: bool) returns (packet: Option<seq<int>>)
    modifies device
    ensures var c := CountsOf(conn.registers, device.id);
            var q := PlannedRequest(t, start, old(device.maxPacketLength), c);
            packet == PacketOf(q) &&
            device.View() == (if q.Some? then AfterRequest(old(device.View()), q.value, c, now, sendOk)
                              else old(device.View()))
  {
    ghost var c := CountsOf(conn.registers, device.id);
    ghost var planned := PlannedRequest(t, start, device.maxPacketLength, c);
    var registers := conn.GetRegistersByType(device, t);
    var size := |registers|;
    var s := if start.Some? then start.value else 0;
    var capacity := if t == DI || t == DO then (device.maxPacketLength - 7) * 8 else (device.maxPacketLength - 7) / 4;
    assert capacity == Capacity(t, device.maxPacketLength) && size == CountOf(c, t);
    var length := ReadLength(capacity, size, s);
    var next := s + length;
    if length <= 0 {
      assert planned.None?;
      return None;
    }
    var q := Request(t, s, length, next);
    assert planned == Some(q);
    packet := Some([PacketCode(ReadMultipleRegisters), RegisterTypeCode(t), HighByte(s), LowByte(s),
                    HighByte(length), LowByte(length), Terminator]);
    assert packet == PacketOf(planned);
    if sendOk {
      RequestSent(conn, device, q, now);
    } else {
      device.ResetCommunicationState();
    }
  }

  /** A request went out: wait for the reply, count the attempt, move the reading pointer. */
  method RequestSent(conn: Connector, device: Device, q: Request, now: int)
    modifies device
    ensures device.View() == AfterRequest(old(device.View()), q, CountsOf(conn.registers, device.id), now, true)
  {
    ghost var v := device.View();
    ghost var c := CountsOf(conn.registers, device.id);
    device.SetWaitingForPacket(Some(ReadMultipleRegisters));
    device.SetLastPacketTimestamp(now);
    ghost var stamped := v.(waitingForPacket := Some(ReadMultipleRegisters), lastPacketTimestamp := now);
    assert device.View() == stamped;
    device.IncrementAttempts();
    assert device.View() == stamped.(attempts := v.attempts + 1);
    device.SetReadingRegister(q.next, q.t);
    var size := conn.GetRegistersByType(device, q.t);
    assert |size| == CountOf(c, q.t);
    if q.next + 1 > |size| {
      UpdateReadingPointer(conn, device, now);
    }
  }

  /** `__update_reading_pointer`. */
  method UpdateReadingPointer(conn: Connector, device: Device, now: int)
    modifies device
    ensures device.View() == AdvancedPointer(old(device.View()), CountsOf(conn.registers, device.id), now)
  {
    var pointer := device.readingRegisterType;
    var dOut := conn.GetRegistersByType(device, DO);
    var ai := conn.GetRegistersByType(device, AI);
    var ao := conn.GetRegistersByType(device, AO);
    if pointer == Some(DI) && |dOut| > 0 {
      device.SetReadingRegister(0, DO);
    } else if pointer in {Some(DI), Some(DO)} && |ai| > 0 {
      device.SetReadingRegister(0, AI);
    } else if pointer in {Some(DI), Some(DO), Some(AI)} && |ao| > 0 {
      device.SetReadingRegister(0, AO);
    } else {
      device.ResetReadingRegister(false, now);
    }
  }

  // ---------------------------------------------------------------------------
  // The receiver

  /** A reply the receiver decodes: long enough for its header and of a known register type. */
  predicate DecodableReply(payload: seq<Byte>)
  {
    |payload| >= 5 && RegisterTypeFromCode(payload[1]).Some?
  }

  /**
   * A reply the receiver fails on with IndexError: too short for its
   * register type byte, or of a known type and too short for the rest of
   * its header.
   */
  predicate ShortReply(payload: seq<Byte>)
  {
    |payload| < 2 || (RegisterTypeFromCode(payload[1]).Some? && |payload| < 5)
  }

  /**
   * `__read_multiple_registers_receiver`: store the values of the reply
   * from the sender through `update_register_value`, which forwards each
   * to the storage, and reset the device's communication. A reply from an
   * unknown sender or of an invalid register type changes nothing; one too
   * short for its header raises (IndexError) and changes nothing.
   */
  method ReceiveReadMultiple(conn: Connector, sender: int, payload: seq<Byte>) returns (target: Option<Device>, raised: bool)
    requires conn.Valid()
    modifies conn, conn.devices, conn.registers`value
    ensures RegistriesKept(conn)
    ensures target == old(DeviceAt(conn.devices, sender))
    ensures raised <==> target.Some? && ShortReply(payload)
    ensures forall d :: d in conn.devices && Some(d) != target ==> d.View() == old(d.View())
    ensures target.None? || !DecodableReply(payload) ==>
              (forall d :: d in conn.devices ==> d.View() == old(d.View())) &&
              (forall x :: x in conn.registers ==> x.value == old(x.value)) &&
              conn.containerCalls == old(conn.containerCalls)
    ensures target.Some? && DecodableReply(payload) ==>
              target.value.View() == ResetCommunication(old(target.value.View())) &&
              var t := RegisterTypeFromCode(payload[1]).value;
              var ws := ReplyWrites(payload, t, Word(payload[2], payload[3]),
                                    |RegistersOf(conn.registers, target.value.id, t)|);
              (forall x :: x in conn.registers ==>
                 x.value == ValueAfter(ws, conn.registers, target.value.id, t, x, x.dataType, old(x.value))) &&
              conn.containerCalls == old(conn.containerCalls) +
                StorageCalls(ws, conn.registers, target.value.id, t, old(TypesOf(conn.registers)), old(ValuesOf(conn.registers)))
  {
    raised := false;
    target := conn.GetDeviceByAddress(sender);
    if target.None? {
      return;
    }
    if |payload| < 2 {
      raised := true;
      return;
    }
    var device := target.value;
    var code := RegisterTypeFromCode(payload[1]);
    if code.None? {
      return;
    }
    if |payload| < 5 {
      raised := true;
      return;
    }
    StoreReply(conn, device, code.value, payload);
  }

  /** A decodable reply from a known device: store its values, then reset the device's communication. */
  method StoreReply(conn: Connector, device: Device, t: RegisterType, payload: seq<Byte>)
    requires conn.Valid() && |payload| >= 5
    modifies conn, device, conn.registers`value
    ensures RegistriesKept(conn)
    ensures device.View() == ResetCommunication(old(device.View()))
    ensures var ws := ReplyWrites(payload, t, Word(payload[2], payload[3]), |RegistersOf(conn.registers, device.id, t)|);
            (forall x :: x in conn.registers ==>
               x.value == ValueAfter(ws, conn.registers, device.id, t, x, x.dataType, old(x.value))) &&
            conn.containerCalls == old(conn.containerCalls) +
              StorageCalls(ws, conn.registers, device.id, t, old(TypesOf(conn.registers)), old(ValuesOf(conn.registers)))
  {
    var start := Word(payload[2], payload[3]);
    if t == DI || t == DO {
      ReadDigital(conn, device, t, start, payload);
    } else {
      ReadAnalog(conn, device, t, start, payload);
    }
    device.ResetCommunicationState();
  }

  /**
   * One write as the receiver makes it: look the register up and, when
   * the value decodes, store it through `update_register_value`.
   */
  method StoreWrite(conn: Connector, device: Device, t: RegisterType, w: Write)
    requires conn.Valid()
    modifies conn, conn.registers`value
    ensures RegistriesKept(conn)
    ensures forall x :: x in conn.registers ==>
              x.value == ValueAfterWrite(w, conn.registers, device.id, t, x, x.dataType, old(x.value))
    ensures conn.containerCalls == old(conn.containerCalls) +
              StorageCallOf(w, conn.registers, device.id, t, old(TypesOf(conn.registers)), old(ValuesOf(conn.registers)))
  {
    var register := conn.GetRegisterByAddress(device, t, w.address);
    if register.Some? {
      var v := WrittenValue(w, register.value.dataType);
      if v.Some? {
        var stored := conn.UpdateRegisterValue(register.value, v.value);
      }
    }
  }

  /**
   * Every register holds the value `ValueAfter` gives it after the writes
   * `done`, from its value in `v0`, and has the data type `types` records.
   */
  ghost predicate ValuesAfterWrites(rs: seq<Register>, done: seq<Write>, deviceId: Uuid, t: RegisterType,
                                    types: map<Register, DataType>, v0: map<Register, Value>)
    reads rs
  {
    forall x :: x in rs ==> x in types && x in v0 && types[x] == x.dataType &&
                            x.value == ValueAfter(done, rs, deviceId, t, x, x.dataType, v0[x])
  }

  /**
   * The next write of a reply, above the addresses of the writes done: the
   * values and the forwarded storage calls of `done` extend to `done + [w]`.
   */
  method StoreNext(conn: Connector, device: Device, t: RegisterType, w: Write, ghost done: seq<Write>,
                   ghost calls0: seq<ContainerCall>, ghost types: map<Register, DataType>, ghost v0: map<Register, Value>)
    requires conn.Valid()
    requires forall k :: 0 <= k < |done| ==> done[k].address < w.address
    requires ValuesAfterWrites(conn.registers, done, device.id, t, types, v0)
    requires conn.containerCalls == calls0 + StorageCalls(done, conn.registers, device.id, t, types, v0)
    modifies conn, conn.registers`value
    ensures RegistriesKept(conn)
    ensures ValuesAfterWrites(conn.registers, done + [w], device.id, t, types, v0)
    ensures conn.containerCalls == calls0 + StorageCalls(done + [w], conn.registers, device.id, t, types, v0)
  {
    CallBeforeWrite(conn.registers, done, w, device.id, t, types, v0);
    StoreWrite(conn, device, t, w);
    ValuesAfterNext(conn.registers, done, w, device.id, t, types, v0);
    StorageCallsConcat(done, [w], conn.registers, device.id, t, types, v0);
    StorageCallsSingle(w, conn.registers, device.id, t, types, v0);
  }

  lemma StorageCallsSingle(w: Write, rs: seq<Register>, deviceId: Uuid, t: RegisterType,
                           types: map<Register, DataType>, values: map<Register, Value>)
    ensures StorageCalls([w], rs, deviceId, t, types, values) == StorageCallOf(w, rs, deviceId, t, types, values)
  {
    assert [w][..0] == [];
  }

  /**
   * Before a write above the addresses of the writes done, its register
   * still holds its value from before the reply: the call forwarded now is
   * the one `StorageCallOf` gives from the values before the reply.
   */
  lemma CallBeforeWrite(rs: seq<Register>, done: seq<Write>, w: Write, deviceId: Uuid, t: RegisterType,
                        types: map<Register, DataType>, v0: map<Register, Value>)
    requires ValuesAfterWrites(rs, done, deviceId, t, types, v0)
    requires forall k :: 0 <= k < |done| ==> done[k].address < w.address
    ensures StorageCallOf(w, rs, deviceId, t, TypesOf(rs), ValuesOf(rs)) == StorageCallOf(w, rs, deviceId, t, types, v0)
  {
    match RegisterAt(rs, deviceId, t, w.address)
    case None =>
    case Some(x) =>
      ValueAfterUntouched(done, rs, deviceId, t, x, x.dataType, v0[x]);
  }

  /** One more write extends `ValuesAfterWrites` from the writes done to `done + [w]`. */
  lemma ValuesAfterNext(rs: seq<Register>, done: seq<Write>, w: Write, deviceId: Uuid, t: RegisterType,
                        types: map<Register, DataType>, v0: map<Register, Value>)
    requires forall x :: x in rs ==>
               x in types && x in v0 && types[x] == x.dataType &&
               x.value == ValueAfterWrite(w, rs, deviceId, t, x, x.dataType,
                                          ValueAfter(done, rs, deviceId, t, x, x.dataType, v0[x]))
    ensures ValuesAfterWrites(rs, done + [w], deviceId, t, types, v0)
  {
    forall x | x in rs
      ensures x.value == ValueAfter(done + [w], rs, deviceId, t, x, x.dataType, v0[x])
    {
      ValueAfterSnoc(done, w, rs, deviceId, t, x, x.dataType, v0[x]);
    }
  }

  /** The digital branch: eight registers per data byte, stopping each byte at the register count. */
  method ReadDigital(conn: Connector, device: Device, t: RegisterType, start: int, payload: seq<Byte>)
    requires conn.Valid()
    modifies conn, conn.registers`value
    ensures RegistriesKept(conn)
    ensures var ws := DigitalWrites(payload, 5, start, |RegistersOf(conn.registers, device.id, t)|);
            (forall x :: x in conn.registers ==>
               x.value == ValueAfter(ws, conn.registers, device.id, t, x, x.dataType, old(x.value))) &&
            conn.containerCalls == old(conn.containerCalls) +
              StorageCalls(ws, conn.registers, device.id, t, old(TypesOf(conn.registers)), old(ValuesOf(conn.registers)))
  {
    ghost var types, v0, calls0 := TypesOf(conn.registers), ValuesOf(conn.registers), conn.containerCalls;
    var registers := conn.GetRegistersByType(device, t);
    var count := |registers|;
    ghost var all := DigitalWrites(payload, 5, start, count);
    ghost var done: seq<Write> := [];
    var position := 5;
    var address := start;
    while position < |payload| - 1
      invariant 5 <= position
      invariant RegistriesKept(conn)
      invariant done + DigitalWrites(payload, position, address, count) == all
      invariant forall k :: 0 <= k < |done| ==> done[k].address < address
      invariant ValuesAfterWrites(conn.registers, done, device.id, t, types, v0)
      invariant conn.containerCalls == calls0 + StorageCalls(done, conn.registers, device.id, t, types, v0)
      decreases |payload| - position
    {
      ghost var bits := ByteWrites(payload[position], address, BitsTaken(address, count));
      var next := ReadNextByte(conn, device, t, payload[position], address, count, done, calls0, types, v0);
      DigitalWritesStep(done, payload, position, address, count);
      done := done + bits;
      address := next;
      position := position + 1;
    }
    assert done == all;
  }

  /**
   * The next data byte of a digital reply, after the writes `done` of the
   * bytes before: the values and the forwarded storage calls extend to
   * the byte's bits.
   */
  method ReadNextByte(conn: Connector, device: Device, t: RegisterType, b: Byte, first: int, count: int,
                      ghost done: seq<Write>, ghost calls0: seq<ContainerCall>,
                      ghost types: map<Register, DataType>, ghost v0: map<Register, Value>) returns (next: int)
    requires conn.Valid()
    requires forall k :: 0 <= k < |done| ==> done[k].address < first
    requires ValuesAfterWrites(conn.registers, done, device.id, t, types, v0)
    requires conn.containerCalls == calls0 + StorageCalls(done, conn.registers, device.id, t, types, v0)
    modifies conn, conn.registers`value
    ensures RegistriesKept(conn)
    ensures next == first + BitsTaken(first, count)
    ensures var ws := done + ByteWrites(b, first, BitsTaken(first, count));
            ValuesAfterWrites(conn.registers, ws, device.id, t, types, v0) &&
            conn.containerCalls == calls0 + StorageCalls(ws, conn.registers, device.id, t, types, v0) &&
            forall k :: 0 <= k < |ws| ==> ws[k].address < next
  {
    ghost var bits := ByteWrites(b, first, BitsTaken(first, count));
    ghost var now := ValuesOf(conn.registers);
    ValuesNow(conn.registers, done, device.id, t, types, v0);
    ByteAddresses(done, b, first, BitsTaken(first, count));
    next := ReadByte(conn, device, t, b, first, count, types);
    ValuesAfterCompose(conn.registers, done, bits, device.id, t, types, v0, now);
    StorageCallsAfter(done, bits, conn.registers, device.id, t, types, v0, now);
  }

  /** The registers' values now are those `ValuesAfterDone` relates to the writes done. */
  lemma ValuesNow(rs: seq<Register>, done: seq<Write>, deviceId: Uuid, t: RegisterType,
                  types: map<Register, DataType>, v0: map<Register, Value>)
    requires ValuesAfterWrites(rs, done, deviceId, t, types, v0)
    ensures ValuesAfterDone(done, rs, deviceId, t, types, v0, ValuesOf(rs))
  {
  }

  /** The bits of a byte from `address` on lie above the writes done and below `address + n`. */
  lemma ByteAddresses(done: seq<Write>, b: Byte, address: int, n: nat)
    requires forall k :: 0 <= k < |done| ==> done[k].address < address
    ensures forall i, j :: 0 <= i < |done| && 0 <= j < n ==> done[i].address < ByteWrites(b, address, n)[j].address
    ensures forall k :: 0 <= k < |done + ByteWrites(b, address, n)| ==>
              (done + ByteWrites(b, address, n))[k].address < address + n
  {
  }

  /** The inner loop of the digital branch: the bits of one data byte, least significant first. */
  method ReadByte(conn: Connector, device: Device, t: RegisterType, b: Byte, first: int, count: int,
                  ghost types: map<Register, DataType>) returns (next: int)
    requires conn.Valid()
    requires forall x :: x in conn.registers ==> x in types && types[x] == x.dataType
    modifies conn, conn.registers`value
    ensures RegistriesKept(conn)
    ensures next == first + BitsTaken(first, count)
    ensures ValuesAfterWrites(conn.registers, ByteWrites(b, first, BitsTaken(first, count)), device.id, t,
                              types, old(ValuesOf(conn.registers)))
    ensures conn.containerCalls == old(conn.containerCalls) +
              StorageCalls(ByteWrites(b, first, BitsTaken(first, count)), conn.registers, device.id, t,
                           types, old(ValuesOf(conn.registers)))
  {
    ghost var v0, calls0 := ValuesOf(conn.registers), conn.containerCalls;
    ghost var n := BitsTaken(first, count);
    ghost var bits: seq<Write> := [];
    var address := first;
    var i := 0;
    var stop := false;
    while i < 8 && !stop
      invariant 0 <= i <= n && address == first + i
      invariant stop ==> i == n
      invariant !stop ==> i < n || i == 8
      invariant RegistriesKept(conn)
      invariant bits == ByteWrites(b, first, i)
      invariant ValuesAfterWrites(conn.registers, bits, device.id, t, types, v0)
      invariant conn.containerCalls == calls0 + StorageCalls(bits, conn.registers, device.id, t, types, v0)
    {
      var w := BitWrite(address, Bit(b, i));
      StoreNext(conn, device, t, w, bits, calls0, types, v0);
      ByteWritesSnoc(b, first, i);
      bits := bits + [w];
      BitsTakenStep(first, count, i);
      address := address + 1;
      if address >= count {
        stop := true;
      }
      i := i + 1;
    }
    next := address;
  }

  /** The values after the writes done and then `ws` are those after `done + ws`. */
  lemma ValuesAfterCompose(rs: seq<Register>, done: seq<Write>, ws: seq<Write>, deviceId: Uuid, t: RegisterType,
                           types: map<Register, DataType>, v0: map<Register, Value>, now: map<Register, Value>)
    requires ValuesAfterDone(done, rs, deviceId, t, types, v0, now)
    requires ValuesAfterWrites(rs, ws, deviceId, t, types, now)
    ensures ValuesAfterWrites(rs, done + ws, deviceId, t, types, v0)
  {
    forall x | x in rs
      ensures x.value == ValueAfter(done + ws, rs, deviceId, t, x, x.dataType, v0[x])
    {
      ValueAfterConcat(done, ws, rs, deviceId, t, x, x.dataType, v0[x]);
    }
  }

  /** The inner loop stops at the register count or after eight bits, whichever comes first. */
  lemma BitsTakenStep(first: int, count: int, i: nat)
    requires i < BitsTaken(first, count)
    ensures first + i + 1 >= count ==> i + 1 == BitsTaken(first, count)
    ensures first + i + 1 < count ==> i + 1 < BitsTaken(first, count) || i + 1 == 8
  {
  }

  /** The analog branch: one register per four data bytes. */
  method ReadAnalog(conn: Connector, device: Device, t: RegisterType, start: int, payload: seq<Byte>)
    requires conn.Valid()
    modifies conn, conn.registers`value
    ensures RegistriesKept(conn)
    ensures var ws := AnalogWrites(payload, 5, start);
            (forall x :: x in conn.registers ==>
               x.value == ValueAfter(ws, conn.registers, device.id, t, x, x.dataType, old(x.value))) &&
            conn.containerCalls == old(conn.containerCalls) +
              StorageCalls(ws, conn.registers, device.id, t, old(TypesOf(conn.registers)), old(ValuesOf(conn.registers)))
  {
    ghost var types, v0, calls0 := TypesOf(conn.registers), ValuesOf(conn.registers), conn.containerCalls;
    ghost var all := AnalogWrites(payload, 5, start);
    ghost var done: seq<Write> := [];
    var position := 5;
    var address := start;
    while position + 3 < |payload| - 1
      invariant 5 <= position
      invariant RegistriesKept(conn)
      invariant done + AnalogWrites(payload, position, address) == all
      invariant forall k :: 0 <= k < |done| ==> done[k].address < address
      invariant ValuesAfterWrites(conn.registers, done, device.id, t, types, v0)
      invariant conn.containerCalls == calls0 + StorageCalls(done, conn.registers, device.id, t, types, v0)
      decreases |payload| - position
    {
      var w := WordWrite(address, payload[position..position + 4]);
      StoreNext(conn, device, t, w, done, calls0, types, v0);
      AnalogWritesStep(done, payload, position, address);
      done := done + [w];
      position := position + 4;
      address := address + 1;
    }
    assert done == all;
  }
}
