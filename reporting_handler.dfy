// Values a device reports on its own
// (miniserver_gateway/connectors/fb_bus/handlers/reporting_handler.py).
//
// A device sends REPORT_SINGLE_REGISTER when one of its inputs changes: the
// register type and address, then a word (0xFF00 is on) for a digital
// input or four bytes for an analog input. The report does not touch the
// device's communication state.

module FbBusReportingHandler {
  import opened Common
  import opened FbBusTypes
  import opened FbBusDevice
  import opened FbBusRegister
  import opened FbBusConnector
  import FbBusHelpers

  /** How many payload bytes the receiver reads for a register of type `t`. */
  function ReportLength(t: RegisterType): nat
  {
    if t == DI then 6 else if t == AI then 8 else 4
  }

  /** The value a report stores in a register of type `t` and data type `dataType`; None when it stores nothing. */
  function ReportedValue(t: RegisterType, dataType: DataType, payload: seq<Byte>): (r: Option<Value>)
    requires |payload| >= ReportLength(t)
    ensures r.Some? ==> t == DI || t == AI
    ensures t == DI ==> r == Some(VBool(payload[4] == 0xFF && payload[5] == 0x00))
  {
    if t == DI then Some(VBool(Word(payload[4], payload[5]) == 0xFF00))
    else if t == AI then
      match FbBusHelpers.TransformValueFromBytes(dataType, payload[4..8])
      case Decoded(v) => Some(v)
      case _ => None
    else None
  }

  /** The register a report names, when the payload has a valid type and a full address. */
  function ReportTarget(rs: seq<Register>, deviceId: Uuid, payload: seq<Byte>): (x: Option<Register>)
    ensures x.Some? ==> x.value in rs && x.value.deviceId == deviceId
    ensures x.Some? ==> |payload| >= 4 && RegisterTypeFromCode(payload[1]) == Some(x.value.registerType) &&
                        x.value.address == Word(payload[2], payload[3])
  {
    if |payload| < 4 then None
    else match RegisterTypeFromCode(payload[1])
      case None => None
      case Some(t) => RegisterAt(rs, deviceId, t, Word(payload[2], payload[3]))
  }

  /**
   * Reports reach the inputs only: an output register's value never changes
   * through a report, whatever the payload says.
   */
  lemma ReportsOnlyInputs(t: RegisterType, dataType: DataType, payload: seq<Byte>)
    requires |payload| >= ReportLength(t)
    requires t == DO || t == AO
    ensures ReportedValue(t, dataType, payload).None?
  {
  }

  /** An analog report stores exactly the integer a device encoded in four bytes. */
  lemma AnalogReportRoundTrip(dataType: DataType, i: int, payload: seq<Byte>)
    requires dataType in {UInt8, UInt16, UInt32, Int8, Int16, Int32}
    requires FbBusHelpers.InPackRange(dataType, i)
    requires |payload| >= 8 && payload[4..8] == FbBusHelpers.TransformValueToBytes(dataType, VInt(i)).bytes
    ensures FbBusHelpers.TransformValueToBytes(dataType, VInt(i)).Encoded?
    ensures ReportedValue(AI, dataType, payload) == Some(VInt(i))
  {
    FbBusHelpers.IntegerRoundTrip(dataType, i);
  }

  /**
   * A report the receiver fails on with IndexError: too short for its
   * register type byte, for the address of a valid type, or for the value
   * bytes of the register it names on device `deviceId`.
   */
  predicate ReportTooShort(rs: seq<Register>, deviceId: Uuid, payload: seq<Byte>)
  {
    |payload| < 2 ||
    (RegisterTypeFromCode(payload[1]).Some? &&
     (|payload| < 4 ||
      (ReportTarget(rs, deviceId, payload).Some? &&
       |payload| < ReportLength(RegisterTypeFromCode(payload[1]).value))))
  }

  /**
   * `receive` for REPORT_SINGLE_REGISTER: store the reported value in the
   * register the report names through `update_register_value`, which
   * forwards it to the storage. Nothing changes for an unknown sender,
   * another packet or an invalid register type; a payload too short for
   * the bytes the receiver reads raises (IndexError) before any change.
   */
  method ReceiveReport(conn: Connector, packet: Packet, sender: int, payload: seq<Byte>) returns (raised: bool)
    requires conn.Valid()
    modifies conn, conn.registers`value
    ensures RegistriesKept(conn)
    ensures var d := old(DeviceAt(conn.devices, sender));
            raised <==> d.Some? && packet == ReportSingleRegister && ReportTooShort(conn.registers, d.value.id, payload)
    ensures raised ==>
              (forall y :: y in conn.registers ==> y.value == old(y.value)) &&
              conn.containerCalls == old(conn.containerCalls)
    ensures var d := old(DeviceAt(conn.devices, sender));
            var x := if d.Some? && packet == ReportSingleRegister then ReportTarget(conn.registers, d.value.id, payload) else None;
            var stores := x.Some? && |payload| >= ReportLength(x.value.registerType) &&
                          ReportedValue(x.value.registerType, x.value.dataType, payload).Some?;
            (forall y :: y in conn.registers ==>
               y.value == if stores && x.value == y
                          then ReportedValue(y.registerType, y.dataType, payload).value else old(y.value)) &&
            conn.containerCalls == old(conn.containerCalls) +
              if stores
              then [PropertyToStorage(x.value.id, ReportedValue(x.value.registerType, x.value.dataType, payload).value,
                                      old(x.value.value))]
              else []
  {
    raised := false;
    var device := conn.GetDeviceByAddress(sender);
    if device.None? || packet != ReportSingleRegister {
      return;
    }
    if |payload| < 2 {
      return true;
    }
    var code := RegisterTypeFromCode(payload[1]);
    if code.None? {
      return;
    }
    if |payload| < 4 {
      return true;
    }
    var t := code.value;
    var register := conn.GetRegisterByAddress(device.value, t, Word(payload[2], payload[3]));
    if register.Some? {
      if |payload| < ReportLength(t) {
        return true;
      }
      var v := ReportedValue(t, register.value.dataType, payload);
      if v.Some? {
        var stored := conn.UpdateRegisterValue(register.value, v.value);
      }
    }
  }
}
