// Writing one register of a device
// (miniserver_gateway/connectors/fb_bus/handlers/writing_handler.py).
//
// The gateway sends WRITE_SINGLE_REGISTER with the register's type and
// address and the value: a digital output as the word 0xFF00 (on) or 0x0000
// (off), an analog output as the four bytes of its data type. The device
// answers with the same layout and the gateway stores the value it reads
// back.

module FbBusWritingHandler {
  import opened Common
  import opened FbBusTypes
  import opened FbBusDevice
  import opened FbBusRegister
  import opened FbBusConnector
  import FbBusHelpers
  import GT = GatewayTypes

  /** The word a digital output is switched on with. */
  const DigitalOn: int := 0xFF00

  /** The word a digital value is sent as: on for a truthy value, off otherwise. */
  function DigitalWord(v: Value): int
  {
    if Truthy(v) then DigitalOn else 0x0000
  }

  /** The header of a write: packet id, register type, address high byte first. */
  function WriteHeader(t: RegisterType, address: int): seq<int>
  {
    [PacketCode(WriteSingleRegister), RegisterTypeCode(t), HighByte(address), LowByte(address)]
  }

  /** The packet switching a digital output on or off. */
  function DigitalWriteRequest(address: int, v: Value): seq<int>
  {
    var w := DigitalWord(v);
    WriteHeader(DO, address) + [HighByte(w), LowByte(w)] + [Terminator]
  }

  /**
   * `write_value_to_register`: the packet for a value, or None when the
   * register is not an output or its data type has no byte layout (for a
   * value `struct.pack` refuses, see `WriteRaises`). `floatBytes` are
   * the bytes `struct.pack("<f", ...)` gives a float value, which the model
   * does not compute.
   */
  function WriteRequest(t: RegisterType, address: int, dataType: DataType, v: Value, floatBytes: seq<Byte>): Option<seq<int>>
  {
    if t == DO then Some(DigitalWriteRequest(address, v))
    else if t == AO then
      match FbBusHelpers.TransformValueToBytes(dataType, v)
      case Encoded(bytes) => Some(WriteHeader(t, address) + bytes + [Terminator])
      case FloatEncoded => Some(WriteHeader(t, address) + floatBytes + [Terminator])
      case _ => None
    else None
  }

  /**
   * An analog write whose value `struct.pack` refuses (not an integer, or
   * out of the format's range): struct.error ends `write_value_to_register`
   * before anything is sent.
   */
  predicate WriteRaises(t: RegisterType, dataType: DataType, v: Value)
  {
    t == AO && FbBusHelpers.TransformValueToBytes(dataType, v).EncodeRaises?
  }

  /** The device once a write went out: one more attempt, waiting for the echo; reset when sending failed. */
  function AfterWrite(v: DeviceView, now: int, sendOk: bool): DeviceView
  {
    var w := v.(attempts := v.attempts + 1, waitingForPacket := Some(WriteSingleRegister), lastPacketTimestamp := now);
    if sendOk then w else ResetCommunication(w)
  }

  /**
   * The value the gateway stores from a WRITE_SINGLE_REGISTER reply for a
   * register of type `t` and data type `dataType`; None when it stores
   * nothing. The reply must hold the bytes read (six for DO, eight for AO).
   */
  function EchoedValue(t: RegisterType, dataType: DataType, payload: seq<Byte>): Option<Value>
    requires |payload| >= EchoLength(t)
  {
    if t == DO then Some(VBool(Word(payload[4], payload[5]) == DigitalOn))
    else if t == AO then
      match FbBusHelpers.TransformValueFromBytes(dataType, payload[4..8])
      case Decoded(v) => Some(v)
      case _ => None
    else None
  }

  /** How many payload bytes the reply receiver reads for a register of type `t`. */
  function EchoLength(t: RegisterType): nat
  {
    if t == DO then 6 else if t == AO then 8 else 4
  }

  // ---------------------------------------------------------------------------
  // Write and echo

  /**
   * A device that echoes a digital write (packet id, type, address and the
   * value word) makes the gateway store whether the written value was truthy.
   */
  lemma DigitalEchoRoundTrip(address: int, dataType: DataType, v: Value, floatBytes: seq<Byte>, echo: seq<Byte>)
    requires WriteRequest(DO, address, dataType, v, floatBytes) == Some(echo)
    ensures |echo| == 7 && EchoedValue(DO, dataType, echo) == Some(VBool(Truthy(v)))
  {
    assert echo == DigitalWriteRequest(address, v);
    if Truthy(v) {
      assert HighByte(DigitalOn) == 0xFF && LowByte(DigitalOn) == 0;
      assert echo[4] == 0xFF && echo[5] == 0;
    } else {
      assert echo[4] == 0 && echo[5] == 0;
    }
  }

  /**
   * A device that echoes an analog write of an integer register makes the
   * gateway store the integer it wrote (a bool is written as 0 or 1).
   */
  lemma AnalogEchoRoundTrip(address: int, dataType: DataType, v: Value, floatBytes: seq<Byte>, echo: seq<Byte>)
    requires dataType != Float32
    requires WriteRequest(AO, address, dataType, v, floatBytes) == Some(echo)
    ensures |echo| == 9 && EchoedValue(AO, dataType, echo) == Some(VInt(FbBusHelpers.IntegerOf(v).value))
  {
    var i := FbBusHelpers.IntegerOf(v).value;
    var bytes := FbBusHelpers.TransformValueToBytes(dataType, v).bytes;
    FbBusHelpers.IntegerRoundTrip(dataType, i);
    assert FbBusHelpers.TransformValueToBytes(dataType, VInt(i)).bytes == bytes;
    assert echo == WriteHeader(AO, address) + bytes + [Terminator];
    assert echo[4..8] == bytes;
  }

  /** Only the outputs are written, and an analog output only with a value its data type packs. */
  lemma WriteRequestOnlyForOutputs(t: RegisterType, address: int, dataType: DataType, v: Value, floatBytes: seq<Byte>)
    ensures WriteRequest(t, address, dataType, v, floatBytes).Some? <==>
            t == DO || (t == AO && (FbBusHelpers.TransformValueToBytes(dataType, v).Encoded? ||
                                    FbBusHelpers.TransformValueToBytes(dataType, v).FloatEncoded?))
    ensures t == AO && WriteRequest(t, address, dataType, v, floatBytes).Some? ==>
            dataType in {Float32, UInt8, UInt16, UInt32, Int8, Int16, Int32}
    ensures WriteRaises(t, dataType, v) ==> WriteRequest(t, address, dataType, v, floatBytes).None?
    ensures WriteRaises(t, dataType, v) <==>
            t == AO && dataType in {UInt8, UInt16, UInt32, Int8, Int16, Int32} &&
            (FbBusHelpers.IntegerOf(v).None? || !FbBusHelpers.InPackRange(dataType, FbBusHelpers.IntegerOf(v).value))
  {
  }

  // ---------------------------------------------------------------------------
  // The handler

  /**
   * `write_value_to_register`: write a value to a register of a RUNNING
   * device. Nothing happens when the device is unknown or not running, or
   * the register is not an output; a value `struct.pack` refuses raises
   * (struct.error) before any change.
   */
  method WriteValueToRegister(conn: Connector, register: Register, v: Value, now: int, sendOk: bool,
                              floatBytes: seq<Byte>) returns (packet: Option<seq<int>>, raised: bool)
    modifies conn.devices
    ensures var d := DeviceWithId(conn.devices, register.deviceId);
            var running := d.Some? && old(d.value.state) == GT.Running;
            var q := if running
                     then WriteRequest(register.registerType, register.address, register.dataType, v, floatBytes)
                     else None;
            packet == q &&
            (raised <==> running && WriteRaises(register.registerType, register.dataType, v)) &&
            (raised ==> packet.None?) &&
            (q.Some? ==> d.value.View() == AfterWrite(old(d.value.View()), now, sendOk)) &&
            forall e :: e in conn.devices && (q.None? || e != d.value) ==> e.View() == old(e.View())
  {
    raised := false;
    var d := conn.GetDeviceById(register.deviceId);
    if d.None? || !d.value.IsReady() {
      return None, false;
    }
    var device := d.value;
    raised := WriteRaises(register.registerType, register.dataType, v);
    packet := WriteRequest(register.registerType, register.address, register.dataType, v, floatBytes);
    if packet.None? {
      return;
    }
    device.IncrementAttempts();
    device.SetWaitingForPacket(Some(WriteSingleRegister));
    device.SetLastPacketTimestamp(now);
    if !sendOk {
      device.ResetCommunicationState();
    }
  }

  /** The register-type byte of a reply, when the payload has one and it names a register type. */
  function ReplyType(payload: seq<Byte>): Option<RegisterType>
  {
    if |payload| < 2 then None else RegisterTypeFromCode(payload[1])
  }

  /**
   * A reply the receiver fails on with IndexError: too short for its
   * register type byte, for the address of a valid type, or for the value
   * bytes of the register it names on device `deviceId`.
   */
  predicate EchoTooShort(rs: seq<Register>, deviceId: Uuid, payload: seq<Byte>)
  {
    |payload| < 2 ||
    (ReplyType(payload).Some? &&
     (|payload| < 4 ||
      (RegisterAt(rs, deviceId, ReplyType(payload).value, Word(payload[2], payload[3])).Some? &&
       |payload| < EchoLength(ReplyType(payload).value))))
  }

  /**
   * `__write_single_registers_receiver`: store the echoed value in the
   * register it names through `update_register_value`, which forwards it
   * to the storage, and reset the sender's communication. An unknown
   * sender or an invalid register type changes nothing; a payload too
   * short for the bytes the receiver reads raises (IndexError) before any
   * change.
   */
  method ReceiveWriteSingle(conn: Connector, sender: int, payload: seq<Byte>) returns (target: Option<Device>, raised: bool)
    requires conn.Valid()
    modifies conn, conn.devices, conn.registers`value
    ensures RegistriesKept(conn)
    ensures target == old(DeviceAt(conn.devices, sender))
    ensures raised <==> target.Some? && EchoTooShort(conn.registers, target.value.id, payload)
    ensures raised ==>
              (forall d :: d in conn.devices ==> d.View() == old(d.View())) &&
              (forall y :: y in conn.registers ==> y.value == old(y.value)) &&
              conn.containerCalls == old(conn.containerCalls)
    ensures var t := ReplyType(payload);
            var x := if target.Some? && t.Some? && |payload| >= 4
                     then RegisterAt(conn.registers, target.value.id, t.value, Word(payload[2], payload[3])) else None;
            var completes := target.Some? && t.Some? && |payload| >= 4 && (x.None? || |payload| >= EchoLength(t.value));
            (!completes ==>
               (forall d :: d in conn.devices ==> d.View() == old(d.View())) &&
               (forall y :: y in conn.registers ==> y.value == old(y.value)) &&
               conn.containerCalls == old(conn.containerCalls)) &&
            (completes ==>
               target.value.View() == ResetCommunication(old(target.value.View())) &&
               (forall d :: d in conn.devices && d != target.value ==> d.View() == old(d.View())) &&
               (forall y :: y in conn.registers ==>
                  y.value == if x == Some(y) && EchoedValue(t.value, y.dataType, payload).Some?
                             then EchoedValue(t.value, y.dataType, payload).value else old(y.value)) &&
               conn.containerCalls == old(conn.containerCalls) +
                 if x.Some? && EchoedValue(t.value, x.value.dataType, payload).Some?
                 then [PropertyToStorage(x.value.id, EchoedValue(t.value, x.value.dataType, payload).value, old(x.value.value))]
                 else [])
  {
    raised := false;
    target := conn.GetDeviceByAddress(sender);
    if target.None? {
      return;
    }
    if |payload| < 2 {
      raised := true;
      return;
    }
    var code := RegisterTypeFromCode(payload[1]);
    if code.None? {
      return;
    }
    if |payload| < 4 {
      raised := true;
      return;
    }
    raised := StoreEcho(conn, target.value, code.value, payload);
  }

  /**
   * The rest of the receiver, for a known device and register type: store
   * the echoed value in the register named and reset the device's
   * communication, or raise when the payload lacks the value bytes of a
   * register it names.
   */
  method StoreEcho(conn: Connector, device: Device, t: RegisterType, payload: seq<Byte>) returns (raised: bool)
    requires conn.Valid() && |payload| >= 4
    modifies conn, device, conn.registers`value
    ensures RegistriesKept(conn)
    ensures var x := RegisterAt(conn.registers, device.id, t, Word(payload[2], payload[3]));
            (raised <==> x.Some? && |payload| < EchoLength(t)) &&
            (raised ==>
               device.View() == old(device.View()) &&
               (forall y :: y in conn.registers ==> y.value == old(y.value)) &&
               conn.containerCalls == old(conn.containerCalls)) &&
            (!raised ==>
               device.View() == ResetCommunication(old(device.View())) &&
               (forall y :: y in conn.registers ==>
                  y.value == if x == Some(y) && EchoedValue(t, y.dataType, payload).Some?
                             then EchoedValue(t, y.dataType, payload).value else old(y.value)) &&
               conn.containerCalls == old(conn.containerCalls) +
                 if x.Some? && EchoedValue(t, x.value.dataType, payload).Some?
                 then [PropertyToStorage(x.value.id, EchoedValue(t, x.value.dataType, payload).value, old(x.value.value))]
                 else [])
  {
    var register := conn.GetRegisterByAddress(device, t, Word(payload[2], payload[3]));
    if register.Some? {
      if |payload| < EchoLength(t) {
        return true;
      }
      var v := EchoedValue(t, register.value.dataType, payload);
      if v.Some? {
        var stored := conn.UpdateRegisterValue(register.value, v.value);
      }
    }
    device.ResetCommunicationState();
    raised := false;
  }
}
