// The connector's entry points for the bus and for the gateway
// (miniserver_gateway/connectors/fb_bus/fb_bus_connector.py): `receive`
// routes a packet from the bus to the pairing helper and, while pairing is
// off, to the four handlers; `publish` writes a value the gateway expects
// to the register with that id, turning "toggle" on a digital output into
// the negation of its current value.

module FbBusDispatch {
  import opened Common
  import opened FbBusTypes
  import opened FbBusDevice
  import opened FbBusRegister
  import opened FbBusConnector
  import opened FbBusPairingHelper
  import FbBusCheckingHandler
  import FbBusReadingHandler
  import FbBusReportingHandler
  import FbBusWritingHandler
  import GT = GatewayTypes

  /** A packet whose first byte names a known packet; `Packets(int(payload[0]))` raises for any other. */
  predicate KnownPacket(payload: seq<Byte>)
  {
    |payload| >= 1 && PacketFromCode(payload[0]).Some?
  }

  /** The packet a payload with a known packet id carries. */
  function PacketOf(payload: seq<Byte>): Packet
    requires KnownPacket(payload)
  {
    PacketFromCode(payload[0]).value
  }

  /**
   * The four handlers' `receive`. The source hands every packet to the
   * checking, reading, reporting and writing handlers in turn; each acts on
   * its own packets only (PONG, GET_STATE and REPORT_STATE; READ_MULTIPLE;
   * REPORT_SINGLE; WRITE_SINGLE) and leaves everything unchanged for the
   * others, so one call per packet does the same. A handler that raises
   * does so before any change, and the exception ends `receive`.
   */
  method Handlers(conn: Connector, packet: Packet, sender: int, payload: seq<Byte>, now: int,
                  ghost target: Option<Device>) returns (raised: bool)
    requires conn.Valid()
    requires target == DeviceAt(conn.devices, sender)
    modifies conn, conn.devices, conn.registers`value
    ensures RegistriesKept(conn)
    ensures packet == ReadMultipleRegisters ==>
              (raised <==> target.Some? && FbBusReadingHandler.ShortReply(payload))
    ensures packet == ReportSingleRegister ==>
              (raised <==> target.Some? && FbBusReportingHandler.ReportTooShort(conn.registers, target.value.id, payload))
    ensures packet == WriteSingleRegister ==>
              (raised <==> target.Some? && FbBusWritingHandler.EchoTooShort(conn.registers, target.value.id, payload))
    ensures packet !in {ReadMultipleRegisters, ReportSingleRegister, WriteSingleRegister} ==> !raised
    ensures raised ==>
              DevicesUnchanged(conn.devices) &&
              (forall x :: x in conn.registers ==> x.value == old(x.value)) &&
              conn.containerCalls == old(conn.containerCalls)
    ensures packet !in {ReadMultipleRegisters, ReportSingleRegister, WriteSingleRegister} ==>
              forall x :: x in conn.registers ==> x.value == old(x.value)
    ensures packet !in {Pong, GetState, ReportState, ReadMultipleRegisters, WriteSingleRegister} ==>
              DevicesUnchanged(conn.devices)
    ensures old(conn.containerCalls) <= conn.containerCalls
  {
    raised := false;
    if packet == Pong || packet == GetState || packet == ReportState {
      var _ := FbBusCheckingHandler.Receive(conn, packet, sender, payload, now);
    } else if packet in {ReadMultipleRegisters, ReportSingleRegister, WriteSingleRegister} {
      raised := RegisterHandlers(conn, packet, sender, payload);
    }
  }

  /** The reading, reporting and writing handlers' `receive`, for the packets that carry register values. */
  method RegisterHandlers(conn: Connector, packet: Packet, sender: int, payload: seq<Byte>) returns (raised: bool)
    requires conn.Valid()
    requires packet in {ReadMultipleRegisters, ReportSingleRegister, WriteSingleRegister}
    modifies conn, conn.devices, conn.registers`value
    ensures RegistriesKept(conn)
    ensures packet == ReadMultipleRegisters ==>
              (raised <==> old(DeviceAt(conn.devices, sender)).Some? && FbBusReadingHandler.ShortReply(payload))
    ensures var d := old(DeviceAt(conn.devices, sender));
            packet == ReportSingleRegister ==>
              (raised <==> d.Some? && FbBusReportingHandler.ReportTooShort(conn.registers, d.value.id, payload))
    ensures var d := old(DeviceAt(conn.devices, sender));
            packet == WriteSingleRegister ==>
              (raised <==> d.Some? && FbBusWritingHandler.EchoTooShort(conn.registers, d.value.id, payload))
    ensures raised ==>
              DevicesUnchanged(conn.devices) &&
              (forall x :: x in conn.registers ==> x.value == old(x.value)) &&
              conn.containerCalls == old(conn.containerCalls)
    ensures packet == ReportSingleRegister ==> DevicesUnchanged(conn.devices)
    ensures old(conn.containerCalls) <= conn.containerCalls
  {
    if packet == ReadMultipleRegisters {
      var _, r := FbBusReadingHandler.ReceiveReadMultiple(conn, sender, payload);
      raised := r;
    } else if packet == ReportSingleRegister {
      raised := FbBusReportingHandler.ReceiveReport(conn, packet, sender, payload);
    } else {
      var _, r := FbBusWritingHandler.ReceiveWriteSingle(conn, sender, payload);
      raised := r;
    }
  }

  /**
   * `receive`: a packet from the bus. A payload without a known packet id
   * raises before anything happens. While pairing is off, a packet from an
   * assigned address no device holds is dropped; any other goes on as
   * `ReceivePacket` says. `handled` says whether the handlers ran, and `raised` whether
   * the packet id, the pairing helper or a handler raised; the other
   * parameters are the pairing helper's.
   */
  method Receive(conn: Connector, helper: PairingHelper, sender: int, payload: seq<Byte>, now: int,
                 maxPacketLength: int, newId: Uuid, registerIds: seq<Uuid>, channelIds: seq<Uuid>,
                 timeMicros: nat, settingIds: seq<Uuid>) returns (raised: bool, handled: bool)
    requires conn.Valid()
    requires forall d :: d in conn.devices ==> d.id != newId
    requires |registerIds| >= 4 * IdBlock && |channelIds| >= 4 * IdBlock && |settingIds| >= 2 * IdBlock
    requires forall i, j :: 0 <= i < j < |registerIds| ==> registerIds[i] != registerIds[j]
    requires forall i, x :: 0 <= i < |registerIds| && x in conn.registers ==> x.id != registerIds[i]
    requires forall i, j :: 0 <= i < j < |settingIds| ==> settingIds[i] != settingIds[j]
    requires forall i, x :: 0 <= i < |settingIds| && (x in conn.deviceSettings || x in conn.registerSettings) ==>
               x.id != settingIds[i]
    modifies helper, conn, (set d | d in conn.devices), (set x | x in conn.registers),
             conn.deviceSettings, conn.registerSettings
    ensures conn.Valid()
    ensures handled ==> !helper.State().enabled
    ensures handled && raised ==>
              conn.registers == old(conn.registers) &&
              (forall x :: x in old(conn.registers) ==> x.value == old(x.value)) &&
              conn.containerCalls == old(conn.containerCalls)
    ensures !KnownPacket(payload) ==>
              raised && !handled && helper.State() == old(helper.State()) && Untouched(conn)
    ensures KnownPacket(payload) && !old(helper.State().enabled) && sender != AddressNotAssigned &&
            old(DeviceAt(conn.devices, sender)).None? ==>
              !raised && !handled && helper.State() == old(helper.State()) && Untouched(conn)
    ensures KnownPacket(payload) && PacketOf(payload) != PairDevice && old(helper.State().enabled) ==>
              !raised && !handled && helper.State() == old(helper.State()) && Untouched(conn)
    ensures KnownPacket(payload) && PacketOf(payload) != PairDevice && !old(helper.State().enabled) &&
            (sender == AddressNotAssigned || old(DeviceAt(conn.devices, sender)).Some?) ==>
              handled && helper.State() == old(helper.State())
    ensures KnownPacket(payload) && PacketOf(payload) == ReadMultipleRegisters && handled ==>
              (raised <==> old(DeviceAt(conn.devices, sender)).Some? && FbBusReadingHandler.ShortReply(payload))
    ensures var d := old(DeviceAt(conn.devices, sender));
            KnownPacket(payload) && PacketOf(payload) == ReportSingleRegister && handled ==>
              (raised <==> d.Some? && FbBusReportingHandler.ReportTooShort(conn.registers, d.value.id, payload))
    ensures var d := old(DeviceAt(conn.devices, sender));
            KnownPacket(payload) && PacketOf(payload) == WriteSingleRegister && handled ==>
              (raised <==> d.Some? && FbBusWritingHandler.EchoTooShort(conn.registers, d.value.id, payload))
    ensures handled && raised ==>
              KnownPacket(payload) && PacketOf(payload) in {ReadMultipleRegisters, ReportSingleRegister, WriteSingleRegister}
  {
    if |payload| < 1 {
      return true, false;
    }
    var packet := PacketFromCode(payload[0]);
    if packet.None? {
      return true, false;
    }
    var enabled := helper.IsPairingEnabled();
    if sender != AddressNotAssigned && !enabled {
      var device := conn.GetDeviceByAddress(sender);
      if device.None? {
        return false, false;
      }
    }
    raised, handled := ReceivePacket(conn, helper, packet.value, sender, payload, now, maxPacketLength, newId,
                                     registerIds, channelIds, timeMicros, settingIds);
  }

  /**
   * `receive` once the packet id is known and the packet is not dropped:
   * the pairing helper sees it; the four handlers see it too only when
   * pairing is off once the helper is done (and the helper did not raise).
   */
  method ReceivePacket(conn: Connector, helper: PairingHelper, packet: Packet, sender: int, payload: seq<Byte>,
                       now: int, maxPacketLength: int, newId: Uuid, registerIds: seq<Uuid>, channelIds: seq<Uuid>,
                       timeMicros: nat, settingIds: seq<Uuid>) returns (raised: bool, handled: bool)
    requires conn.Valid()
    requires forall d :: d in conn.devices ==> d.id != newId
    requires |registerIds| >= 4 * IdBlock && |channelIds| >= 4 * IdBlock && |settingIds| >= 2 * IdBlock
    requires forall i, j :: 0 <= i < j < |registerIds| ==> registerIds[i] != registerIds[j]
    requires forall i, x :: 0 <= i < |registerIds| && x in conn.registers ==> x.id != registerIds[i]
    requires forall i, j :: 0 <= i < j < |settingIds| ==> settingIds[i] != settingIds[j]
    requires forall i, x :: 0 <= i < |settingIds| && (x in conn.deviceSettings || x in conn.registerSettings) ==>
               x.id != settingIds[i]
    requires helper.State().enabled || sender == AddressNotAssigned || DeviceAt(conn.devices, sender).Some?
    modifies helper, conn, (set d | d in conn.devices), (set x | x in conn.registers),
             conn.deviceSettings, conn.registerSettings
    ensures conn.Valid()
    ensures handled ==> !helper.State().enabled
    ensures handled && raised ==>
              conn.registers == old(conn.registers) &&
              (forall x :: x in old(conn.registers) ==> x.value == old(x.value)) &&
              conn.containerCalls == old(conn.containerCalls)
    ensures packet != PairDevice && old(helper.State().enabled) ==>
              !raised && !handled && helper.State() == old(helper.State()) && Untouched(conn)
    ensures packet != PairDevice && !old(helper.State().enabled) &&
            (sender == AddressNotAssigned || old(DeviceAt(conn.devices, sender)).Some?) ==>
              handled && helper.State() == old(helper.State())
    ensures packet == ReadMultipleRegisters && handled ==>
              (raised <==> old(DeviceAt(conn.devices, sender)).Some? && FbBusReadingHandler.ShortReply(payload))
    ensures var d := old(DeviceAt(conn.devices, sender));
            packet == ReportSingleRegister && handled ==>
              (raised <==> d.Some? && FbBusReportingHandler.ReportTooShort(conn.registers, d.value.id, payload))
    ensures var d := old(DeviceAt(conn.devices, sender));
            packet == WriteSingleRegister && handled ==>
              (raised <==> d.Some? && FbBusWritingHandler.EchoTooShort(conn.registers, d.value.id, payload))
    ensures handled && raised ==>
              packet in {ReadMultipleRegisters, ReportSingleRegister, WriteSingleRegister}
  {
    ghost var d := DeviceAt(conn.devices, sender);
    raised := helper.Receive(conn, packet, sender, payload, now, maxPacketLength, newId,
                             registerIds, channelIds, timeMicros, settingIds);
    if raised {
      return true, false;
    }
    if packet != PairDevice {
      assert DeviceAt(conn.devices, sender) == d;
      assert conn.registers == old(conn.registers);
      assert conn.containerCalls == old(conn.containerCalls);
      assert forall x :: x in conn.registers ==> x.value == old(x.value);
    } else {
      d := DeviceAt(conn.devices, sender);
    }
    raised, handled := HandleUnlessPairing(conn, helper, packet, sender, payload, now, d);
  }

  /** The end of `receive`: the four handlers see the packet when pairing is off. */
  method HandleUnlessPairing(conn: Connector, helper: PairingHelper, packet: Packet, sender: int, payload: seq<Byte>,
                             now: int, ghost target: Option<Device>) returns (raised: bool, handled: bool)
    requires conn.Valid()
    requires target == DeviceAt(conn.devices, sender)
    modifies conn, conn.devices, conn.registers`value
    ensures RegistriesKept(conn)
    ensures handled <==> !helper.State().enabled
    ensures !handled ==> !raised && Untouched(conn)
    ensures handled && raised ==>
              (forall x :: x in conn.registers ==> x.value == old(x.value)) &&
              conn.containerCalls == old(conn.containerCalls) &&
              packet in {ReadMultipleRegisters, ReportSingleRegister, WriteSingleRegister}
    ensures handled && packet == ReadMultipleRegisters ==>
              (raised <==> target.Some? && FbBusReadingHandler.ShortReply(payload))
    ensures handled && packet == ReportSingleRegister ==>
              (raised <==> target.Some? && FbBusReportingHandler.ReportTooShort(conn.registers, target.value.id, payload))
    ensures handled && packet == WriteSingleRegister ==>
              (raised <==> target.Some? && FbBusWritingHandler.EchoTooShort(conn.registers, target.value.id, payload))
  {
    var enabled := helper.IsPairingEnabled();
    handled := !enabled;
    raised := false;
    if handled {
      raised := Handlers(conn, packet, sender, payload, now, target);
    }
  }

  // ---------------------------------------------------------------------------
  // Publishing an expected value

  /** The first register with the given id. */
  function RegisterWithId(rs: seq<Register>, id: Uuid): (r: Option<Register>)
    ensures r.Some? ==> r.value in rs && r.value.id == id
    ensures r.None? <==> forall x :: x in rs ==> x.id != id
  {
    if |rs| == 0 then None
    else if rs[0].id == id then Some(rs[0])
    else RegisterWithId(rs[1..], id)
  }

  /** The "toggle" command a client sends instead of a value. */
  const Toggle: Value := VText("toggle")

  /**
   * The value `publish` writes: "toggle" on a digital output becomes the
   * negation of the register's value (`False if value is True else True`,
   * so any value other than the boolean true turns the output on); any other
   * expected value is written as given.
   */
  function PublishedValue(t: RegisterType, current: Value, expected: Value): Value
  {
    if t == DO && expected == Toggle then VBool(current != VBool(true)) else expected
  }

  /** Toggling a digital output writes the opposite of what the register holds. */
  lemma ToggleWritesOpposite(address: int, dataType: DataType, current: Value, floatBytes: seq<Byte>)
    ensures var q := FbBusWritingHandler.WriteRequest(DO, address, dataType, PublishedValue(DO, current, Toggle), floatBytes);
            q.Some? && |q.value| == 7 && q.value[4] == if current == VBool(true) then 0x00 else 0xFF
  {
  }

  /**
   * `publish`: write the expected value to the register with the given id,
   * as `write_value_to_register` does, raising where it raises. Register
   * ids are distinct, so the source's loop over the registers writes once
   * at most.
   */
  method Publish(conn: Connector, propertyId: Uuid, expected: Value, now: int, sendOk: bool, floatBytes: seq<Byte>)
    returns (packet: Option<seq<int>>, raised: bool)
    modifies conn.devices
    ensures var x := RegisterWithId(conn.registers, propertyId);
            var d := if x.Some? then DeviceWithId(conn.devices, x.value.deviceId) else None;
            var running := d.Some? && old(d.value.state) == GT.Running;
            var q := if running
                     then FbBusWritingHandler.WriteRequest(x.value.registerType, x.value.address, x.value.dataType,
                                                           PublishedValue(x.value.registerType, x.value.value, expected),
                                                           floatBytes)
                     else None;
            packet == q &&
            (raised <==> running && FbBusWritingHandler.WriteRaises(x.value.registerType, x.value.dataType,
                                                                    PublishedValue(x.value.registerType, x.value.value, expected))) &&
            (q.Some? ==> d.value.View() == FbBusWritingHandler.AfterWrite(old(d.value.View()), now, sendOk)) &&
            forall e :: e in conn.devices && (q.None? || Some(e) != d) ==> e.View() == old(e.View())
    ensures var x := RegisterWithId(conn.registers, propertyId);
            x.Some? && x.value.registerType == DO && expected == Toggle && packet.Some? ==>
              |packet.value| == 7 && packet.value[4] == if x.value.value == VBool(true) then 0x00 else 0xFF
  {
    var i := 0;
    while i < |conn.registers|
      invariant 0 <= i <= |conn.registers|
      invariant RegisterWithId(conn.registers, propertyId) == RegisterWithId(conn.registers[i..], propertyId)
    {
      var x := conn.registers[i];
      if x.id == propertyId {
        var v := PublishedValue(x.registerType, x.value, expected);
        if x.registerType == DO && expected == Toggle {
          ToggleWritesOpposite(x.address, x.dataType, x.value, floatBytes);
        }
        packet, raised := FbBusWritingHandler.WriteValueToRegister(conn, x, v, now, sendOk, floatBytes);
        return;
      }
      assert conn.registers[i..] == [x] + conn.registers[i + 1..];
      i := i + 1;
    }
    packet, raised := None, false;
  }
}
