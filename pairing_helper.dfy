// The pairing helper of the FastyBird bus connector
// (miniserver_gateway/connectors/fb_bus/utilities/pairing_helper.py) as the
// object the connector holds: its four fields, `handle`, `receive` and the
// receivers, working on the devices and registries in place.
//
// Each method is proved against the functions of FbBusPairingSteps (the
// state machine as values) and FbBusPairingConfigure / FbBusPairingStructure
// (the registry updates).

module FbBusPairingHelper {
  import opened Common
  import opened FbBusTypes
  import opened FbBusDevice
  import opened FbBusRegister
  import opened FbBusSetting
  import opened FbBusConnector
  import opened FbBusPairingRequests
  import opened FbBusPairingSteps
  import opened FbBusPairingConfigure
  import FbBusPairingStructure
  import FbBusHelpers
  import GT = GatewayTypes

  /** The registers-size reply configures the four register types in this order. */
  const SizedTypes: seq<RegisterType> := [DI, DO, AI, AO]

  /** A device reports at most 255 entries of one type, so one id block per type is this long. */
  const IdBlock: nat := 256

  /** The device the registry holds at `address`, as a frame. */
  function DeviceFrame(ds: seq<Device>, address: int): set<object>
    reads ds
  {
    match DeviceAt(ds, address)
    case Some(d) => {d}
    case None => {}
  }

  /** The device the registry holds with the serial number an address reply carries, as a frame. */
  function SerialFrame(ds: seq<Device>, payload: seq<Byte>): set<object>
  {
    match DeviceWithSerial(ds, FbBusHelpers.TextAt(payload, 3))
    case Some(d) => {d}
    case None => {}
  }

  /** Nothing any device of the registry holds has changed. */
  twostate predicate DevicesUnchanged(ds: seq<Device>)
    reads ds
  {
    forall d :: d in ds ==> d.View() == old(d.View())
  }

  /** Neither the connector nor any device, register or setting it holds changed. */
  twostate predicate Untouched(conn: Connector)
    reads conn, conn.devices, conn.registers, conn.deviceSettings, conn.registerSettings
  {
    unchanged(conn) && unchanged(conn.devices) && unchanged(conn.registers) &&
    unchanged(conn.deviceSettings) && unchanged(conn.registerSettings)
  }

  /** A pairing reply names a known pairing response in its second byte. */
  predicate PairingHeader(payload: seq<Byte>)
  {
    |payload| >= 2 && ResponseFromCode(payload[1]).Some?
  }

  /** The response a reply with a pairing header carries. */
  function ResponseOf(payload: seq<Byte>): PairingResponse
    requires PairingHeader(payload)
  {
    ResponseFromCode(payload[1]).value
  }

  /**
   * `__send_set_address_handler`'s packet, built as the source builds it:
   * the header, the serial number one character at a time, the terminator.
   */
  method BuildSetAddressRequest(address: int, serial: string) returns (out: seq<int>)
    ensures out == SetAddressRequest(address, serial)
    ensures |out| == |serial| + 4 && out[|out| - 1] == Terminator
  {
    out := [PacketCode(PairDevice), CommandCode(SetAddress), address];
    var i := 0;
    while i < |serial|
      invariant 0 <= i <= |serial|
      invariant out == [PacketCode(PairDevice), CommandCode(SetAddress), address] +
                       seq(i, j requires 0 <= j < i => serial[j] as int)
    {
      out := out + [serial[i] as int];
      i := i + 1;
    }
    out := out + [Terminator];
    assert seq(|serial|, j requires 0 <= j < |serial| => serial[j] as int) + [Terminator] ==
           FbBusHelpers.TextField(serial);
  }

  class PairingHelper {
    var enabled: bool
    var pairingDevice: Option<Uuid>
    var lastBroadcast: int
    var attempts: nat

    function State(): PairingState
      reads this
    {
      PairingState(enabled, pairingDevice, lastBroadcast, attempts)
    }

    /** A new helper: pairing off, no pairing device, no broadcast yet. */
    constructor ()
      ensures State() == PairingState(false, None, 0, 0)
    {
      enabled, pairingDevice, lastBroadcast, attempts := false, None, 0, 0;
    }

    method EnablePairing()
      modifies this
      ensures State() == old(State()).(enabled := true)
    {
      enabled := true;
    }

    method DisablePairing()
      modifies this
      ensures State() == old(State()).(enabled := false)
    {
      enabled := false;
    }

    /** `is_pairing_enabled`. */
    method IsPairingEnabled() returns (r: bool)
      ensures r <==> State().enabled
    {
      return enabled;
    }

    // -------------------------------------------------------------------------
    // `handle`

    /** The pairing device as the registry returns it by id. */
    function Target(conn: Connector): (r: Option<Device>)
      reads this, conn
      ensures r.Some? ==> r.value in conn.devices
    {
      if pairingDevice.Some? then conn.GetDeviceById(pairingDevice.value) else None
    }

    function TargetFrame(conn: Connector): set<object>
      reads this, conn
    {
      match Target(conn)
      case Some(d) => {d}
      case None => {}
    }

    function TargetView(conn: Connector): Option<DeviceView>
      reads this, conn, conn.devices
    {
      match Target(conn)
      case Some(d) => Some(d.View())
      case None => None
    }

    /** The number of registers and of settings of the type the pairing device's pointers name. */
    function TargetCounts(conn: Connector): (nat, nat)
      reads this, conn, conn.devices
    {
      match Target(conn)
      case Some(d) => (PointedRegisterCount(conn.registers, d.id, d.View()),
                       PointedSettingCount(conn.deviceSettings, conn.registerSettings, d.id, d.View()))
      case None => (0, 0)
    }

    /**
     * `handle`: search while no device answered, else drive the pairing
     * device one command further. `now` is the clock, `sendOk` what the
     * transport returns for a packet sent to the device.
     */
    method Handle(conn: Connector, now: int, sendOk: bool) returns (sent: Option<Outgoing>, raised: bool)
      modifies this, TargetFrame(conn)
      ensures var st := HandleStep(old(State()), old(TargetView(conn)), old(TargetCounts(conn)).0,
                                   old(TargetCounts(conn)).1, now, sendOk);
              State() == st.state && sent == st.sent && raised == st.raised &&
              (old(Target(conn)).Some? ==> st.device == Some(old(Target(conn)).value.View()))
    {
      if !enabled {
        return None, false;
      }
      if pairingDevice.None? {
        sent := Search(now);
        return sent, false;
      }
      var target := conn.GetDeviceById(pairingDevice.value);
      if target.None? {
        pairingDevice := None;
        DisablePairing();
        return None, false;
      }
      sent, raised := HandleDevice(conn, target.value, now, sendOk);
    }

    /** `handle` with no pairing device: give up after five broadcasts, else broadcast when due. */
    method Search(now: int) returns (sent: Option<Outgoing>)
      modifies this
      ensures State() == SearchStep(old(State()), now)
      ensures sent == if BroadcastDue(old(State()), now) then Some(Broadcast(BroadcastRequest())) else None
    {
      sent := None;
      if attempts >= MaxSearchingAttempts {
        DisablePairing();
        attempts := 0;
        lastBroadcast := 0;
      } else if lastBroadcast == 0 || now - lastBroadcast >= SearchingDelay {
        sent := Some(Broadcast(BroadcastRequest()));
        attempts := attempts + 1;
        lastBroadcast := now;
      }
    }

    /** `handle` with the pairing device `d` loaded from the registry. */
    method HandleDevice(conn: Connector, d: Device, now: int, sendOk: bool) returns (sent: Option<Outgoing>, raised: bool)
      modifies this, d
      ensures var v := old(d.View());
              var st := DeviceStep(old(State()), v, PointedRegisterCount(conn.registers, d.id, v),
                                   PointedSettingCount(conn.deviceSettings, conn.registerSettings, d.id, v), now, sendOk);
              State() == st.state && Some(d.View()) == st.device && sent == st.sent && raised == st.raised
    {
      if d.attempts >= MaxTransmitAttempts {
        d.SetState(GT.Lost, now);
        pairingDevice := None;
        DisablePairing();
        return None, false;
      }
      if d.pairingCmd == Some(SetAddress) {
        if d.state != GT.Connected {
          pairingDevice := None;
          DisablePairing();
          return None, false;
        }
        var p := BuildSetAddressRequest(d.address, d.serialNumber);
        sent := SendToDevice(d, p, now, sendOk);
        return sent, false;
      }
      if d.state != GT.Init {
        pairingDevice := None;
        return None, false;
      }
      match d.pairingCmd {
        case None =>
          return None, false;
        case Some(c) =>
          if PlainCommand(c) {
            sent := SendToDevice(d, CommandRequest(c), now, sendOk);
            return sent, false;
          } else if c == ProvideRegistersStructure {
            sent, raised := SendRegistersStructure(conn, d, now, sendOk);
          } else if c == ProvideSettingsStructure {
            sent, raised := SendSettingsStructure(conn, d, now, sendOk);
          } else {
            return None, false;
          }
      }
    }

    /**
     * `__send_data_to_device`: count the attempt, wait for the pairing reply
     * and stamp the time, then send; a failed send clears the communication.
     */
    method SendToDevice(d: Device, p: seq<int>, now: int, sendOk: bool) returns (sent: Option<Outgoing>)
      modifies d
      ensures d.View() == AfterPairingPacket(old(d.View()), now, sendOk)
      ensures sent == Some(Unicast(old(d.address), p))
    {
      d.IncrementAttempts();
      d.SetWaitingForPacket(Some(PairDevice));
      d.SetLastPacketTimestamp(now);
      sent := Some(Unicast(d.address, p));
      if !sendOk {
        d.ResetCommunicationState();
      }
    }

    /**
     * `__send_provide_registers_structure_handler`: ask for the window of
     * analog registers the reading pointer starts; raises without a reading pointer
     * or for a digital type.
     */
    method SendRegistersStructure(conn: Connector, d: Device, now: int, sendOk: bool)
      returns (sent: Option<Outgoing>, raised: bool)
      modifies d
      ensures var v := old(d.View());
              var packet := RegistersStructureRequest(RegisterPointer(v), PointedRegisterCount(conn.registers, d.id, v),
                                                      v.maxPacketLength);
              (packet.None? ==> raised && sent.None? && d.View() == v) &&
              (packet.Some? ==> !raised && sent == Some(Unicast(v.address, packet.value)) &&
                                d.View() == AfterPairingPacket(v, now, sendOk))
    {
      if d.readingRegisterAddress.None? || d.readingRegisterType.None? {
        return None, true;
      }
      var start := d.readingRegisterAddress.value;
      var t := d.readingRegisterType.value;
      if t != AI && t != AO {
        return None, true;
      }
      var registers := conn.GetRegistersByType(d, t);
      var length := StructureLength(|registers|, start, RegistersPerReply(d.maxPacketLength));
      sent := SendToDevice(d, StructureRequest(ProvideRegistersStructure, RegisterTypeCode(t), start, length), now, sendOk);
      raised := false;
    }

    /**
     * `__send_provide_settings_structure_handler`: ask for the window of
     * settings the setting pointer starts; raises without a reading pointer.
     */
    method SendSettingsStructure(conn: Connector, d: Device, now: int, sendOk: bool)
      returns (sent: Option<Outgoing>, raised: bool)
      modifies d
      ensures var v := old(d.View());
              var packet := SettingsStructureRequest(SettingPointer(v),
                                                     PointedSettingCount(conn.deviceSettings, conn.registerSettings, d.id, v),
                                                     v.maxPacketLength);
              (packet.None? ==> raised && sent.None? && d.View() == v) &&
              (packet.Some? ==> !raised && sent == Some(Unicast(v.address, packet.value)) &&
                                d.View() == AfterPairingPacket(v, now, sendOk))
    {
      if d.readingSettingAddress.None? || d.readingSettingType.None? {
        return None, true;
      }
      var start := d.readingSettingAddress.value;
      var kind := d.readingSettingType.value;
      var settings := conn.GetSettingsByType(d, kind);
      var length := StructureLength(|settings|, start, SettingsPerReply(kind, d.maxPacketLength));
      sent := SendToDevice(d, StructureRequest(ProvideSettingsStructure, SettingTypeCode(kind), start, length), now, sendOk);
      raised := false;
    }

    // -------------------------------------------------------------------------
    // The receivers

    /**
     * `__device_address_receiver`: a device answered the search. The reply
     * must come from the address it reports; the device is found by its
     * serial number or created (`maxPacketLength` is the transport's maximum
     * packet length, `newId` the fresh id); it becomes the pairing device and
     * the search counters restart. Raises on a reply too short to carry an
     * address and when no address is left for a new device.
     */
    method DeviceAddressReceiver(conn: Connector, sender: int, payload: seq<Byte>, maxPacketLength: int, newId: Uuid)
      returns (raised: bool)
      requires conn.Valid()
      requires forall d :: d in conn.devices ==> d.id != newId
      modifies this, conn, SerialFrame(conn.devices, payload)
      ensures conn.Valid()
      ensures conn.registers == old(conn.registers) && conn.deviceSettings == old(conn.deviceSettings) &&
              conn.registerSettings == old(conn.registerSettings)
      ensures |payload| < 3 || payload[2] != sender ==>
                raised == (|payload| < 3) && State() == old(State()) && unchanged(conn) &&
                DevicesUnchanged(conn.devices)
      ensures |payload| >= 3 && payload[2] == sender ==>
                var serial := FbBusHelpers.TextAt(payload, 3);
                var found := old(DeviceWithSerial(conn.devices, serial));
                var paired := old(State()).(attempts := 0, lastBroadcast := 0);
                (found.Some? ==>
                   !raised && conn.devices == old(conn.devices) &&
                   found.value.View() == AddressedView(old(found.value.View()), payload[2]) &&
                   State() == paired.(pairingDevice := Some(found.value.id))) &&
                (found.None? ==>
                   (raised <==> old(AllAddressesTaken(conn.devices))) &&
                   (raised ==> State() == old(State()) && conn.devices == old(conn.devices)) &&
                   (!raised ==>
                      |conn.devices| == |old(conn.devices)| + 1 && conn.devices[..|old(conn.devices)|] == old(conn.devices) &&
                      var d := conn.devices[|old(conn.devices)|];
                      fresh(d) && d.id == newId && 1 <= d.address < MaxAddress &&
                      d.View() == AddressedView(InitialView(d.address, serial, maxPacketLength, false, false, false)
                                                  .(state := GT.Connected), payload[2]) &&
                      State() == paired.(pairingDevice := Some(newId))))
    {
      ghost var full := AllAddressesTaken(conn.devices);
      if |payload| < 3 {
        return true;
      }
      var current := payload[2];
      if current != sender {
        return false;
      }
      var serial := FbBusHelpers.ExtractTextFromPayload(payload, 3);
      var found := conn.GetDeviceBySerialNumber(serial);
      var d: Device;
      if found.None? {
        assert full == AllAddressesTaken(conn.devices);
        var created := conn.CreateDevice(serial, maxPacketLength, newId);
        if created.None? {
          return true;
        }
        d := created.value;
      } else {
        d := found.value;
      }
      Adopt(d, current);
      raised := false;
    }

    /**
     * The rest of `__device_address_receiver` once the device is known: a
     * device registered without an address takes the reported one, the
     * device is told an address next or goes on to the about info, and it
     * becomes the pairing device with fresh search counters. (The source
     * checks the address only for a device it found; one it has just created
     * has an address below 253, for which the check never holds.)
     */
    method Adopt(d: Device, current: int)
      modifies this, d
      ensures d.View() == AddressedView(old(d.View()), current)
      ensures State() == old(State()).(attempts := 0, lastBroadcast := 0, pairingDevice := Some(d.id))
    {
      AddressDevice(d, current);
      pairingDevice := Some(d.id);
      attempts := 0;
      lastBroadcast := 0;
    }

    /** The device part of adopting it: the address it reports, then the state and command that address calls for. */
    static method AddressDevice(d: Device, current: int)
      modifies d
      ensures d.View() == AddressedView(old(d.View()), current)
    {
      if current != d.address && current != AddressNotAssigned && d.address == AddressNotAssigned {
        // The source looks the address up here, but its uniqueness test
        // compares the device's serial number with itself and never holds.
        d.SetAddress(current);
      }
      if current == AddressNotAssigned {
        d.SetState(GT.Connected, 0);
        d.SetPairingCmd(Some(SetAddress));
      } else {
        d.SetState(GT.Init, 0);
        d.SetPairingCmd(Some(ProvideAboutInfo));
      }
      d.ResetCommunicationState();
    }

    /**
     * `__device_address_accepted_receiver` for the device at the sender's
     * address: the device confirmed the address with its serial number and
     * goes on to the about info; another serial number changes nothing.
     */
    method AddressAcceptedReceiver(d: Device, payload: seq<Byte>)
      modifies d
      ensures d.View() == if d.serialNumber == FbBusHelpers.TextAt(payload, 2) then AcceptedView(old(d.View()))
                          else old(d.View())
    {
      var serial := FbBusHelpers.ExtractTextFromPayload(payload, 2);
      if d.serialNumber != serial {
        return;
      }
      d.SetState(GT.Init, 0);
      d.SetPairingCmd(Some(ProvideAboutInfo));
      d.ResetCommunicationState();
    }

    /**
     * `__device_about_info_receiver` for the device at the sender's address:
     * the maximum packet length and the three capability flags. Raises,
     * before changing anything, on a reply shorter than ten bytes.
     */
    method AboutInfoReceiver(d: Device, payload: seq<Byte>) returns (raised: bool)
      modifies d
      ensures raised == (|payload| < 10)
      ensures d.View() == if raised then old(d.View()) else AboutInfoView(old(d.View()), payload)
    {
      if |payload| < 10 {
        return true;
      }
      var maxPacketLength := Word(payload[2], payload[3]);
      var descriptionSupport := Word(payload[4], payload[5]) == 0xFF00;
      var settingsSupport := Word(payload[6], payload[7]) == 0xFF00;
      var pubSubSupport := Word(payload[8], payload[9]) == 0xFF00;
      d.SetMaxPacketLength(maxPacketLength);
      d.SetDescriptionSupport(descriptionSupport);
      d.GetSettingsSupport(settingsSupport);
      d.SetPubSubSupport(pubSubSupport);
      if d.descriptionSupport {
        d.SetPairingCmd(Some(ProvideDeviceModel));
      } else {
        d.SetPairingCmd(Some(ProvideRegistersSize));
      }
      d.ResetCommunicationState();
      raised := false;
    }

    /**
     * `__device_description_receiver` for the device at the sender's
     * address: store one description text and ask for the next.
     */
    method DescriptionReceiver(d: Device, response: PairingResponse, payload: seq<Byte>)
      requires DescriptionResponse(response)
      modifies d
      ensures d.View() == DescribedView(old(d.View()), response, FbBusHelpers.TextAt(payload, 2))
    {
      var content := FbBusHelpers.ExtractTextFromPayload(payload, 2);
      match response {
        case DeviceModel =>
          d.SetHwModel(content);
          d.SetPairingCmd(Some(ProvideDeviceManufacturer));
        case DeviceManufacturer =>
          d.SetHwManufacturer(content);
          d.SetPairingCmd(Some(ProvideDeviceVersion));
        case DeviceVersion =>
          d.SetHwVersion(content);
          d.SetPairingCmd(Some(ProvideFirmwareManufacturer));
        case FirmwareManufacturer =>
          d.SetFwManufacturer(content);
          d.SetPairingCmd(Some(ProvideFirmwareVersion));
        case FirmwareVersion =>
          d.SetFwVersion(content);
          d.SetPairingCmd(Some(ProvideRegistersSize));
      }
      d.ResetCommunicationState();
    }

    /**
     * One `__configure_registers` call of the registers-size receiver: the
     * type `SizedTypes[k]` sized by payload byte `2 + k`, with the k-th block
     * of fresh ids. Raises, changing nothing, when the payload has no such
     * byte.
     */
    method ConfigureSized(conn: Connector, d: Device, payload: seq<Byte>, k: nat,
                          ids: seq<Uuid>, channelIds: seq<Uuid>, timeMicros: nat) returns (raised: bool)
      requires k < 4
      requires conn.Valid()
      requires |ids| >= 4 * IdBlock && |channelIds| >= 4 * IdBlock
      requires forall i, j :: 0 <= i < j < |ids| ==> ids[i] != ids[j]
      requires forall i, x :: k * IdBlock <= i < |ids| && x in conn.registers ==> x.id != ids[i]
      modifies conn, set x | x in conn.registers
      ensures conn.Valid()
      ensures conn.devices == old(conn.devices) && conn.deviceSettings == old(conn.deviceSettings) &&
              conn.registerSettings == old(conn.registerSettings)
      ensures raised == (|payload| <= 2 + k)
      ensures raised ==> conn.registers == old(conn.registers)
      ensures !raised ==> forall i :: 0 <= i < payload[2 + k] ==> ConfiguredAt(conn.registers, d.id, SizedTypes[k], i)
      ensures forall u, i :: u != SizedTypes[k] && old(ConfiguredAt(conn.registers, d.id, u, i)) ==>
                ConfiguredAt(conn.registers, d.id, u, i)
      ensures forall i, x :: (k + 1) * IdBlock <= i < |ids| && x in conn.registers ==> x.id != ids[i]
      ensures forall x :: x in conn.registers ==> x in old(conn.registers) || fresh(x)
    {
      if |payload| <= 2 + k {
        return true;
      }
      var block := ids[k * IdBlock..(k + 1) * IdBlock];
      ConfigureRegisters(conn, d, payload[2 + k], SizedTypes[k], block,
                         channelIds[k * IdBlock..(k + 1) * IdBlock], timeMicros);
      forall u, i | u != SizedTypes[k] && old(ConfiguredAt(conn.registers, d.id, u, i))
        ensures ConfiguredAt(conn.registers, d.id, u, i)
      {
        var x: Register :| old(x in conn.registers && OfType(x, d.id, u) && x.address == i &&
                               x.dataType == ConfiguredDataType(u) && x.size == ConfiguredSize(u));
        assert x in conn.registers;
      }
      forall i, x | (k + 1) * IdBlock <= i < |ids| && x in conn.registers
        ensures x.id != ids[i]
      {
        if x !in old(conn.registers) {
          var j :| 0 <= j < |block| && block[j] == x.id;
          assert ids[k * IdBlock + j] == x.id;
        }
      }
      raised := false;
    }

    /**
     * `__registers_size_receiver` for the device at the sender's address:
     * configure the four register types to the sizes the device reports,
     * then go on as `NextAfterRegistersSize` says. The payload is read one
     * byte per type, so a short reply raises part way, after the types before
     * it were configured.
     */
    method RegistersSizeReceiver(conn: Connector, d: Device, payload: seq<Byte>,
                                 ids: seq<Uuid>, channelIds: seq<Uuid>, timeMicros: nat) returns (raised: bool)
      requires conn.Valid()
      requires |ids| >= 4 * IdBlock && |channelIds| >= 4 * IdBlock
      requires forall i, j :: 0 <= i < j < |ids| ==> ids[i] != ids[j]
      requires forall i, x :: 0 <= i < |ids| && x in conn.registers ==> x.id != ids[i]
      modifies conn, conn.registers, d
      ensures conn.Valid()
      ensures conn.devices == old(conn.devices) && conn.deviceSettings == old(conn.deviceSettings) &&
              conn.registerSettings == old(conn.registerSettings)
      ensures raised == (|payload| < 6)
      ensures !raised ==> forall k, i :: 0 <= k < 4 && 0 <= i < payload[2 + k] ==>
                            ConfiguredAt(conn.registers, d.id, SizedTypes[k], i)
      ensures d.View() == if raised then old(d.View())
                          else RegistersSizedView(old(d.View()), |RegistersOf(conn.registers, d.id, AI)|,
                                                  |RegistersOf(conn.registers, d.id, AO)|)
      ensures forall x :: x in conn.registers ==> x in old(conn.registers) || fresh(x)
    {
      // The source makes the four calls one after the other, DI, DO, AI, AO.
      var k := 0;
      while k < 4
        invariant k <= 4
        invariant conn.Valid()
        invariant conn.devices == old(conn.devices) && conn.deviceSettings == old(conn.deviceSettings) &&
                  conn.registerSettings == old(conn.registerSettings)
        invariant k > 0 ==> |payload| > 1 + k
        invariant forall j, i :: 0 <= j < k && 0 <= i < payload[2 + j] ==> ConfiguredAt(conn.registers, d.id, SizedTypes[j], i)
        invariant forall i, x :: k * IdBlock <= i < |ids| && x in conn.registers ==> x.id != ids[i]
        invariant forall x :: x in conn.registers ==> x in old(conn.registers) || fresh(x)
        invariant unchanged(d)
      {
        raised := ConfigureSized(conn, d, payload, k, ids, channelIds, timeMicros);
        if raised {
          return;
        }
        k := k + 1;
      }
      raised := false;
      NextAfterRegistersSize(conn, d);
    }

    /** The end of `__registers_size_receiver`: pick the next command from the configured registers. */
    method NextAfterRegistersSize(conn: Connector, d: Device)
      modifies d
      ensures d.View() == RegistersSizedView(old(d.View()), |RegistersOf(conn.registers, d.id, AI)|,
                                             |RegistersOf(conn.registers, d.id, AO)|)
    {
      var ai := conn.GetRegistersByType(d, AI);
      var ao := conn.GetRegistersByType(d, AO);
      if |ai| > 0 {
        d.SetReadingRegister(0, AI);
        d.SetPairingCmd(Some(ProvideRegistersStructure));
      } else if |ao| > 0 {
        d.SetReadingRegister(0, AO);
        d.SetPairingCmd(Some(ProvideRegistersStructure));
      } else if d.settingsSupport {
        d.SetPairingCmd(Some(ProvideSettingsSize));
      } else {
        d.SetPairingCmd(Some(Finished));
      }
      d.ResetCommunicationState();
    }

    /**
     * `__settings_size_receiver` for the device at the sender's address:
     * configure the device settings and the register settings to the
     * reported sizes, then go on as `NextAfterSettingsSize` says.
     */
    method SettingsSizeReceiver(conn: Connector, d: Device, payload: seq<Byte>, ids: seq<Uuid>) returns (raised: bool)
      requires conn.Valid()
      requires |ids| >= 2 * IdBlock
      requires forall i, j :: 0 <= i < j < |ids| ==> ids[i] != ids[j]
      requires forall i, x :: 0 <= i < |ids| && (x in conn.deviceSettings || x in conn.registerSettings) ==> x.id != ids[i]
      modifies conn, d
      ensures conn.Valid()
      ensures conn.devices == old(conn.devices) && conn.registers == old(conn.registers)
      ensures raised == (|payload| < 4)
      ensures !raised ==> (forall i :: 0 <= i < payload[2] ==> SettingAt(conn.deviceSettings, d.id, i).Some?) &&
                          (forall i :: 0 <= i < payload[3] ==> SettingAt(conn.registerSettings, d.id, i).Some?)
      ensures d.View() == if raised then old(d.View())
                          else SettingsSizedView(old(d.View()), |SettingsOf(conn.deviceSettings, d.id)|,
                                                 |SettingsOf(conn.registerSettings, d.id)|)
    {
      if |payload| < 3 {
        return true;
      }
      ConfigureSettings(conn, d, payload[2], DeviceSetting, ids[..IdBlock]);
      if |payload| < 4 {
        return true;
      }
      ConfigureSettings(conn, d, payload[3], RegisterSetting, ids[IdBlock..]);
      NextAfterSettingsSize(conn, d);
      raised := false;
    }

    /** The end of `__settings_size_receiver`: pick the next command from the configured settings. */
    method NextAfterSettingsSize(conn: Connector, d: Device)
      modifies d
      ensures d.View() == SettingsSizedView(old(d.View()), |SettingsOf(conn.deviceSettings, d.id)|,
                                            |SettingsOf(conn.registerSettings, d.id)|)
    {
      var deviceSettings := conn.GetSettingsByType(d, DeviceSetting);
      var registerSettings := conn.GetSettingsByType(d, RegisterSetting);
      if |deviceSettings| > 0 {
        d.SetReadingSetting(0, DeviceSetting);
        d.SetPairingCmd(Some(ProvideSettingsStructure));
      } else if |registerSettings| > 0 {
        d.SetReadingSetting(0, RegisterSetting);
        d.SetPairingCmd(Some(ProvideSettingsStructure));
      } else {
        d.SetPairingCmd(Some(Finished));
      }
      d.ResetCommunicationState();
    }

    /**
     * `__pairing_finished_receiver` for the device at the sender's address:
     * pairing ends, then the device takes the state it reports, drops its
     * pairing command and is propagated to the container. The helper's
     * state changes before the state byte is read, so a short reply raises
     * after pairing was turned off.
     */
    method FinishedReceiver(conn: Connector, d: Device, payload: seq<Byte>, now: int) returns (raised: bool)
      modifies this, d, conn
      ensures State() == old(State()).(pairingDevice := None, enabled := false)
      ensures raised == (|payload| < 3)
      ensures d.View() == if raised then old(d.View()) else FinishedView(old(d.View()), payload[2], now)
      ensures conn.containerCalls == old(conn.containerCalls) + if raised then [] else [DevicePropagated(d.id, d.state)]
      ensures conn.devices == old(conn.devices) && conn.registers == old(conn.registers) &&
              conn.deviceSettings == old(conn.deviceSettings) && conn.registerSettings == old(conn.registerSettings)
    {
      pairingDevice := None;
      DisablePairing();
      if |payload| < 3 {
        return true;
      }
      d.SetState(FbBusHelpers.TransformStateForGateway(payload[2]), now);
      d.SetPairingCmd(None);
      conn.PropagateDevice(d);
      raised := false;
    }

    // -------------------------------------------------------------------------
    // The dispatch

    /**
     * `receive`: a pair-device packet goes to the receiver its pairing
     * response names; any other packet is ignored. A reply too short to name
     * a response, or naming none, raises. Except for the device-address
     * response, a reply from an address no device holds changes nothing.
     * The fresh ids the receivers may need come as parameters: `newId` for a
     * new device, `registerIds` and `channelIds` one block of `IdBlock` per
     * register type, `settingIds` one block per settings kind.
     */
    method Receive(conn: Connector, packet: Packet, sender: int, payload: seq<Byte>, now: int,
                   maxPacketLength: int, newId: Uuid, registerIds: seq<Uuid>, channelIds: seq<Uuid>,
                   timeMicros: nat, settingIds: seq<Uuid>) returns (raised: bool)
      requires conn.Valid()
      requires forall d :: d in conn.devices ==> d.id != newId
      requires |registerIds| >= 4 * IdBlock && |channelIds| >= 4 * IdBlock && |settingIds| >= 2 * IdBlock
      requires forall i, j :: 0 <= i < j < |registerIds| ==> registerIds[i] != registerIds[j]
      requires forall i, x :: 0 <= i < |registerIds| && x in conn.registers ==> x.id != registerIds[i]
      requires forall i, j :: 0 <= i < j < |settingIds| ==> settingIds[i] != settingIds[j]
      requires forall i, x :: 0 <= i < |settingIds| && (x in conn.deviceSettings || x in conn.registerSettings) ==>
                 x.id != settingIds[i]
      modifies this, conn, conn.devices, (set x | x in conn.registers), conn.deviceSettings, conn.registerSettings
      ensures conn.Valid()
      ensures forall x :: x in conn.devices ==> x in old(conn.devices) || fresh(x)
      ensures forall x :: x in conn.registers ==> x in old(conn.registers) || fresh(x)
      ensures packet != PairDevice ==> !raised && State() == old(State()) && Untouched(conn)
      ensures packet == PairDevice && !PairingHeader(payload) ==> raised && State() == old(State()) && Untouched(conn)
      ensures packet == PairDevice && PairingHeader(payload) && ResponseOf(payload) != DeviceAddress ==>
                conn.devices == old(conn.devices) &&
                (old(DeviceAt(conn.devices, sender)).None? ==> !raised && State() == old(State()) && Untouched(conn)) &&
                (ResponseOf(payload) != PairingFinished ==> State() == old(State())) &&
                (ResponseOf(payload) == PairingFinished && old(DeviceAt(conn.devices, sender)).Some? ==>
                   State() == old(State()).(pairingDevice := None, enabled := false))
    {
      if packet != PairDevice {
        return false;
      }
      if |payload| < 2 {
        return true;
      }
      var response := ResponseFromCode(payload[1]);
      if response.None? {
        return true;
      }
      if response.value == DeviceAddress {
        raised := DeviceAddressReceiver(conn, sender, payload, maxPacketLength, newId);
        return;
      }
      var found := conn.GetDeviceByAddress(sender);
      if found.None? {
        return false;
      }
      raised := ReceiveFrom(conn, found.value, response.value, payload, now, registerIds, channelIds, timeMicros, settingIds);
    }

    /** The receivers `receive` calls for a reply from the device `d` at the sender's address. */
    method ReceiveFrom(conn: Connector, d: Device, response: PairingResponse, payload: seq<Byte>, now: int,
                       registerIds: seq<Uuid>, channelIds: seq<Uuid>, timeMicros: nat, settingIds: seq<Uuid>)
      returns (raised: bool)
      requires response != DeviceAddress
      requires conn.Valid()
      requires |registerIds| >= 4 * IdBlock && |channelIds| >= 4 * IdBlock && |settingIds| >= 2 * IdBlock
      requires forall i, j :: 0 <= i < j < |registerIds| ==> registerIds[i] != registerIds[j]
      requires forall i, x :: 0 <= i < |registerIds| && x in conn.registers ==> x.id != registerIds[i]
      requires forall i, j :: 0 <= i < j < |settingIds| ==> settingIds[i] != settingIds[j]
      requires forall i, x :: 0 <= i < |settingIds| && (x in conn.deviceSettings || x in conn.registerSettings) ==>
                 x.id != settingIds[i]
      modifies this, conn, d, (set x | x in conn.registers), conn.deviceSettings, conn.registerSettings
      ensures conn.Valid()
      ensures conn.devices == old(conn.devices)
      ensures forall x :: x in conn.registers ==> x in old(conn.registers) || fresh(x)
      ensures response != PairingFinished ==> State() == old(State())
      ensures response == PairingFinished ==> State() == old(State()).(pairingDevice := None, enabled := false)
    {
      match response {
        case AddressAccepted =>
          AddressAcceptedReceiver(d, payload);
          raised := false;
        case AboutInfo =>
          raised := AboutInfoReceiver(d, payload);
        case DeviceModel | DeviceManufacturer | DeviceVersion | FirmwareManufacturer | FirmwareVersion =>
          DescriptionReceiver(d, response, payload);
          raised := false;
        case RegistersSize =>
          raised := RegistersSizeReceiver(conn, d, payload, registerIds, channelIds, timeMicros);
        case RegistersStructure =>
          raised := StructureReceiver(conn, d, response, payload);
        case SettingsSize =>
          raised := SettingsSizeReceiver(conn, d, payload, settingIds);
        case SettingsStructure =>
          raised := StructureReceiver(conn, d, response, payload);
        case PairingFinished =>
          raised := FinishedReceiver(conn, d, payload, now);
      }
    }

    /**
     * `__registers_structure_receiver` and `__settings_structure_receiver`
     * for the device at the sender's address, as FbBusPairingStructure
     * states them: the registers reply runs the receiver with its address
     * loop bounded by the announced window (the corrected loop), the
     * settings reply the receiver as written.
     */
    method StructureReceiver(conn: Connector, d: Device, response: PairingResponse, payload: seq<Byte>)
      returns (raised: bool)
      requires response == RegistersStructure || response == SettingsStructure
      modifies d, conn.registers, conn.deviceSettings, conn.registerSettings
      ensures response == RegistersStructure ==>
                forall x :: x in conn.deviceSettings || x in conn.registerSettings ==> unchanged(x)
      ensures response == SettingsStructure ==> forall x :: x in conn.registers ==> unchanged(x)
      ensures response == RegistersStructure && !FbBusPairingStructure.RegistersHeader(payload) ==>
                raised == (|payload| < 3 || RegisterTypeFromCode(payload[2]).Some?) &&
                d.View() == old(d.View()) &&
                forall x :: x in conn.registers ==> x.dataType == old(x.dataType) && x.size == old(x.size)
      ensures response == RegistersStructure && FbBusPairingStructure.RegistersHeader(payload) ==>
                var t := RegisterTypeFromCode(payload[2]).value;
                var start := FbBusPairingStructure.ReplyWord(payload, 3);
                var length := FbBusPairingStructure.ReplyWord(payload, 5);
                var count := |RegistersOf(conn.registers, d.id, t)|;
                var scan := FbBusPairingStructure.ScanTypes(payload, FbBusPairingStructure.AddressesOf(conn.registers, d.id, t), start, start + length, FbBusPairingStructure.EntriesStart);
                (count == 0 ==> !raised && d.View() == old(d.View()) &&
                                forall x :: x in conn.registers ==> x.dataType == old(x.dataType) && x.size == old(x.size)) &&
                (count > 0 ==>
                  raised == scan.raised &&
                  (forall x :: x in conn.registers ==>
                    (x.dataType, x.size) == FbBusPairingStructure.Typed(scan.writes, conn.registers, d.id, t, x, old(x.dataType), old(x.size))) &&
                  d.View() == if raised then old(d.View())
                              else FbBusPairingStructure.RegistersStructuredView(old(d.View()), t, start, length, count,
                                                           |RegistersOf(conn.registers, d.id, AO)|))
      ensures response == SettingsStructure && !FbBusPairingStructure.SettingsHeader(payload) ==>
                raised == (|payload| < 3 || SettingTypeFromCode(payload[2]).Some?) &&
                d.View() == old(d.View()) &&
                (forall x :: x in conn.deviceSettings ==> x.View() == old(x.View())) &&
                (forall x :: x in conn.registerSettings ==> x.View() == old(x.View()))
      ensures response == SettingsStructure && FbBusPairingStructure.SettingsHeader(payload) ==>
                var kind := SettingTypeFromCode(payload[2]).value;
                var ss := conn.SettingsRegistry(kind);
                var start := FbBusPairingStructure.ReplyWord(payload, 3);
                var count := |SettingsOf(ss, d.id)|;
                var scan := FbBusPairingStructure.ScanSettings(payload, FbBusPairingStructure.EntryTable(payload, kind, conn.registers, d.id),
                                         FbBusPairingStructure.SettingAddresses(ss, d.id), start, |payload|, FbBusPairingStructure.EntriesStart, 0,
                                         FbBusPairingStructure.ReplyWord(payload, 5));
                (count == 0 ==> !raised && d.View() == old(d.View())) &&
                (count > 0 ==>
                  raised == scan.raised &&
                  FbBusPairingStructure.SettingsFrom(ss, d.id, scan.writes, old(FbBusPairingStructure.ViewsOf(ss))) &&
                  d.View() == if raised then old(d.View())
                              else FbBusPairingStructure.SettingsStructuredView(old(d.View()), kind, start, scan.counter, count,
                                                          |SettingsOf(conn.registerSettings, d.id)|))
    {
      if response == RegistersStructure {
        raised := FbBusPairingStructure.RegistersReply(conn, d, payload);
      } else {
        raised := FbBusPairingStructure.SettingsReply(conn, d, payload);
      }
    }
  }
}
