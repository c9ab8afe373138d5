// The pairing state machine of the FastyBird bus connector, as functions of
// its state (miniserver_gateway/connectors/fb_bus/utilities/pairing_helper.py).
//
// While pairing is enabled and no device is being paired, `handle`
// broadcasts a search request at most every 6 s and gives up after five.
// Once a device answered, `handle` sends that device the pairing command it
// is due, and the receivers move the device from command to command: about
// info, the five description texts, the register sizes and structures, the
// setting sizes and structures, and the final state.

module FbBusPairingSteps {
  import opened Common
  import opened FbBusTypes
  import opened FbBusDevice
  import opened FbBusRegister
  import opened FbBusSetting
  import opened FbBusConnector
  import opened FbBusPairingRequests
  import FbBusHelpers
  import GT = GatewayTypes

  /** The fields of the pairing helper. */
  datatype PairingState = PairingState(enabled: bool, pairingDevice: Option<Uuid>, lastBroadcast: int, attempts: nat)

  /** A packet the helper hands to the transport. */
  datatype Outgoing = Broadcast(data: seq<int>) | Unicast(address: int, data: seq<int>)

  /** What one call of `handle` does: the new helper state, the new pairing device, what went out. */
  datatype Step = Step(state: PairingState, device: Option<DeviceView>, sent: Option<Outgoing>, raised: bool)

  // ---------------------------------------------------------------------------
  // `handle`

  /** The reading pointer a registers-structure request starts from, when both halves are set. */
  function RegisterPointer(v: DeviceView): Option<(int, RegisterType)>
  {
    if v.readingRegisterAddress.Some? && v.readingRegisterType.Some? then
      Some((v.readingRegisterAddress.value, v.readingRegisterType.value))
    else None
  }

  function SettingPointer(v: DeviceView): Option<(int, SettingType)>
  {
    if v.readingSettingAddress.Some? && v.readingSettingType.Some? then
      Some((v.readingSettingAddress.value, v.readingSettingType.value))
    else None
  }

  /** How many registers of the reading pointer's type the device has (0 without a reading pointer). */
  function PointedRegisterCount(rs: seq<Register>, deviceId: Uuid, v: DeviceView): nat
  {
    if v.readingRegisterType.Some? then |RegistersOf(rs, deviceId, v.readingRegisterType.value)| else 0
  }

  function PointedSettingCount(dss: seq<Setting>, rss: seq<Setting>, deviceId: Uuid, v: DeviceView): nat
  {
    if v.readingSettingType == Some(DeviceSetting) then |SettingsOf(dss, deviceId)|
    else if v.readingSettingType == Some(RegisterSetting) then |SettingsOf(rss, deviceId)|
    else 0
  }

  /** The commands `handle` sends as they are, with no arguments. */
  predicate PlainCommand(c: PairingCommand)
  {
    c in {ProvideAboutInfo, ProvideDeviceModel, ProvideDeviceManufacturer, ProvideDeviceVersion,
          ProvideFirmwareManufacturer, ProvideFirmwareVersion, ProvideRegistersSize,
          ProvideSettingsSize, Finished}
  }

  /** The packet `handle` sends for the device's pairing command; None where it raises or sends nothing. */
  function CommandPacket(v: DeviceView, registerCount: nat, settingCount: nat): Option<seq<int>>
  {
    match v.pairingCmd
    case None => None
    case Some(c) =>
      if PlainCommand(c) then Some(CommandRequest(c))
      else if c == ProvideRegistersStructure then
        RegistersStructureRequest(RegisterPointer(v), registerCount, v.maxPacketLength)
      else if c == ProvideSettingsStructure then
        SettingsStructureRequest(SettingPointer(v), settingCount, v.maxPacketLength)
      else None
  }

  /** A structure command whose request could not be built: the source raises. */
  predicate CommandRaises(v: DeviceView, registerCount: nat, settingCount: nat)
  {
    v.pairingCmd in {Some(ProvideRegistersStructure), Some(ProvideSettingsStructure)} &&
    CommandPacket(v, registerCount, settingCount).None?
  }

  /** Sending `p` to the device through `__send_data_to_device`. */
  function Sending(s: PairingState, v: DeviceView, p: seq<int>, now: int, sendOk: bool): Step
  {
    Step(s, Some(AfterPairingPacket(v, now, sendOk)), Some(Unicast(v.address, p)), false)
  }

  /** `handle` with a pairing device that is in the registry. */
  function DeviceStep(s: PairingState, v: DeviceView, registerCount: nat, settingCount: nat,
                      now: int, sendOk: bool): (r: Step)
    ensures r.sent.None? || (r.sent.value.Unicast? && r.sent.value.address == v.address)
  {
    if v.attempts >= MaxTransmitAttempts then
      Step(s.(pairingDevice := None, enabled := false), Some(WithState(v, GT.Lost, now)), None, false)
    else if v.pairingCmd == Some(SetAddress) then
      if v.state != GT.Connected then Step(s.(pairingDevice := None, enabled := false), Some(v), None, false)
      else Sending(s, v, SetAddressRequest(v.address, v.serialNumber), now, sendOk)
    else if v.state != GT.Init then
      Step(s.(pairingDevice := None), Some(v), None, false)
    else if CommandRaises(v, registerCount, settingCount) then
      Step(s, Some(v), None, true)
    else match CommandPacket(v, registerCount, settingCount)
      case None => Step(s, Some(v), None, false)
      case Some(p) => Sending(s, v, p, now, sendOk)
  }

  /** `handle` while no device is being paired: broadcast, or give up after five broadcasts. */
  function SearchStep(s: PairingState, now: int): (r: PairingState)
    ensures s.attempts >= MaxSearchingAttempts ==> !r.enabled && r.attempts == 0
    ensures BroadcastDue(s, now) ==> r.attempts == s.attempts + 1 && r.lastBroadcast == now
    ensures r.enabled != s.enabled || r.attempts != s.attempts ==> BroadcastDue(s, now) || !r.enabled
    ensures r.pairingDevice == s.pairingDevice
  {
    if s.attempts >= MaxSearchingAttempts then s.(enabled := false, attempts := 0, lastBroadcast := 0)
    else if BroadcastDue(s, now) then s.(attempts := s.attempts + 1, lastBroadcast := now)
    else s
  }

  predicate BroadcastDue(s: PairingState, now: int)
  {
    s.attempts < MaxSearchingAttempts && (s.lastBroadcast == 0 || now - s.lastBroadcast >= SearchingDelay)
  }

  /**
   * `handle`. `target` is the pairing device as the registry returns it by
   * id (None when there is no pairing device or the registry lost it).
   */
  function HandleStep(s: PairingState, target: Option<DeviceView>, registerCount: nat, settingCount: nat,
                      now: int, sendOk: bool): (r: Step)
    ensures r.state.enabled ==> s.enabled
    ensures r.sent.Some? && r.sent.value.Broadcast? ==> s.pairingDevice.None? && BroadcastDue(s, now)
    ensures r.sent.Some? && r.sent.value.Unicast? ==> target.Some? && r.sent.value.address == target.value.address
  {
    if !s.enabled then Step(s, target, None, false)
    else if s.pairingDevice.None? then
      Step(SearchStep(s, now), target, if BroadcastDue(s, now) then Some(Broadcast(BroadcastRequest())) else None, false)
    else if target.None? then Step(s.(pairingDevice := None, enabled := false), target, None, false)
    else DeviceStep(s, target.value, registerCount, settingCount, now, sendOk)
  }

  // ---------------------------------------------------------------------------
  // Properties of `handle`

  /** Pairing that is off does nothing. */
  lemma DisabledIsIdle(s: PairingState, target: Option<DeviceView>, rc: nat, sc: nat, now: int, sendOk: bool)
    requires !s.enabled
    ensures HandleStep(s, target, rc, sc, now, sendOk) == Step(s, target, None, false)
  {
  }

  /** A broadcast goes out only 6 s or more after the previous one, and only while fewer than five went out. */
  lemma BroadcastsAreSpaced(s: PairingState, target: Option<DeviceView>, rc: nat, sc: nat, now: int, sendOk: bool)
    requires HandleStep(s, target, rc, sc, now, sendOk).sent == Some(Broadcast(BroadcastRequest()))
    ensures s.enabled && s.pairingDevice.None? && s.attempts < MaxSearchingAttempts
    ensures s.lastBroadcast == 0 || now - s.lastBroadcast >= SearchingDelay
    ensures HandleStep(s, target, rc, sc, now, sendOk).state == s.(attempts := s.attempts + 1, lastBroadcast := now)
  {
  }

  /** The searching part of a run of `handle` calls with no pairing device, one per time in `nows`. */
  function SearchRun(s: PairingState, nows: seq<int>): (PairingState, nat)
    decreases |nows|
  {
    if nows == [] then (s, 0)
    else
      var next := if s.enabled then SearchStep(s, nows[0]) else s;
      var sent: nat := if s.enabled && BroadcastDue(s, nows[0]) then 1 else 0;
      var rest := SearchRun(next, nows[1..]);
      (rest.0, sent + rest.1)
  }

  /** The broadcasts still allowed: none once pairing is off, else the attempts left. */
  function Budget(s: PairingState): int
  {
    if s.enabled then MaxSearchingAttempts - s.attempts else 0
  }

  /**
   * However often `handle` runs, a search sends at most five broadcasts:
   * each one uses up an attempt, and the call after the fifth turns pairing
   * off.
   */
  lemma {:induction false} AtMostFiveBroadcasts(s: PairingState, nows: seq<int>)
    requires s.pairingDevice.None? && s.attempts <= MaxSearchingAttempts
    ensures SearchRun(s, nows).1 <= Budget(s)
    ensures SearchRun(s, nows).0.attempts <= MaxSearchingAttempts
    decreases |nows|
  {
    if nows != [] {
      var next := if s.enabled then SearchStep(s, nows[0]) else s;
      AtMostFiveBroadcasts(next, nows[1..]);
    }
  }

  /** After five unanswered packets the pairing device is lost and pairing ends; nothing is sent. */
  lemma LostAfterFiveAttempts(s: PairingState, v: DeviceView, rc: nat, sc: nat, now: int, sendOk: bool)
    requires s.enabled && s.pairingDevice.Some? && v.attempts >= MaxTransmitAttempts
    ensures var st := HandleStep(s, Some(v), rc, sc, now, sendOk);
            st.device.value.state == GT.Lost && st.device.value.lostTimestamp == now &&
            !st.state.enabled && st.state.pairingDevice.None? && st.sent.None?
  {
  }

  /**
   * What `handle` sends to a pairing device is the request for its pairing
   * command, addressed to it; sending counts one more attempt, or clears the
   * communication when the transport failed.
   */
  lemma SendsTheDueCommand(s: PairingState, v: DeviceView, rc: nat, sc: nat, now: int, sendOk: bool)
    requires s.enabled && s.pairingDevice.Some?
    requires HandleStep(s, Some(v), rc, sc, now, sendOk).sent.Some?
    ensures var st := HandleStep(s, Some(v), rc, sc, now, sendOk);
            v.attempts < MaxTransmitAttempts && v.pairingCmd.Some? &&
            st.sent.value.Unicast? && st.sent.value.address == v.address &&
            st.sent.value.data[..2] == [PacketCode(PairDevice), CommandCode(v.pairingCmd.value)] &&
            st.device == Some(AfterPairingPacket(v, now, sendOk)) && st.state == s
  {
    var st := HandleStep(s, Some(v), rc, sc, now, sendOk);
    if v.pairingCmd == Some(SetAddress) {
    } else {
      var c := v.pairingCmd.value;
      var p := CommandPacket(v, rc, sc).value;
      if c == ProvideRegistersStructure {
        var (start, t) := RegisterPointer(v).value;
        assert p == StructureRequest(ProvideRegistersStructure, RegisterTypeCode(t), start,
                                     StructureLength(rc, start, RegistersPerReply(v.maxPacketLength)));
      } else if c == ProvideSettingsStructure {
        var (start, kind) := SettingPointer(v).value;
        assert p == StructureRequest(ProvideSettingsStructure, SettingTypeCode(kind), start,
                                     StructureLength(sc, start, SettingsPerReply(kind, v.maxPacketLength)));
      }
    }
  }

  /**
   * A pairing device in the wrong state ends the attempt: one waiting for
   * SET_ADDRESS must be CONNECTED (else pairing turns off too), any other
   * must be INIT (pairing stays on and searches again).
   */
  lemma WrongStateDropsDevice(s: PairingState, v: DeviceView, rc: nat, sc: nat, now: int, sendOk: bool)
    requires s.enabled && s.pairingDevice.Some? && v.attempts < MaxTransmitAttempts
    ensures v.pairingCmd == Some(SetAddress) && v.state != GT.Connected ==>
              HandleStep(s, Some(v), rc, sc, now, sendOk) == Step(s.(pairingDevice := None, enabled := false), Some(v), None, false)
    ensures v.pairingCmd != Some(SetAddress) && v.state != GT.Init ==>
              HandleStep(s, Some(v), rc, sc, now, sendOk) == Step(s.(pairingDevice := None), Some(v), None, false)
  {
  }

  // ---------------------------------------------------------------------------
  // The receivers, on one device

  /**
   * `__device_address_receiver` on the device with the reported serial
   * number: a device registered without an address takes the one it
   * reports; a device reporting no address is told one next (CONNECTED,
   * SET_ADDRESS), any other goes on to the about info (INIT).
   */
  function AddressedView(v: DeviceView, current: int): (r: DeviceView)
  {
    var address := if current != v.address && current != AddressNotAssigned && v.address == AddressNotAssigned
                   then current else v.address;
    var next := if current == AddressNotAssigned then (GT.Connected, SetAddress) else (GT.Init, ProvideAboutInfo);
    ResetCommunication(v.(address := address, state := next.0, pairingCmd := Some(next.1)))
  }

  /** `__device_address_accepted_receiver`: on to the about info. */
  function AcceptedView(v: DeviceView): DeviceView
  {
    ResetCommunication(v.(state := GT.Init, pairingCmd := Some(ProvideAboutInfo)))
  }

  /** A 16-bit capability flag is on when it reads 0xFF00. */
  predicate FlagOn(high: Byte, low: Byte)
  {
    Word(high, low) == 0xFF00
  }

  /** `__device_about_info_receiver`, on a payload of at least ten bytes. */
  function AboutInfoView(v: DeviceView, p: seq<Byte>): DeviceView
    requires |p| >= 10
  {
    var description := FlagOn(p[4], p[5]);
    ResetCommunication(v.(maxPacketLength := Word(p[2], p[3]), descriptionSupport := description,
                          settingsSupport := FlagOn(p[6], p[7]), pubSubSupport := FlagOn(p[8], p[9]),
                          pairingCmd := Some(if description then ProvideDeviceModel else ProvideRegistersSize)))
  }

  /** The five description responses. */
  predicate DescriptionResponse(r: PairingResponse)
  {
    r in {DeviceModel, DeviceManufacturer, DeviceVersion, FirmwareManufacturer, FirmwareVersion}
  }

  /** `__device_description_receiver`: store the text, ask for the next one, then for the register sizes. */
  function DescribedView(v: DeviceView, r: PairingResponse, content: string): DeviceView
    requires DescriptionResponse(r)
  {
    var w := match r
      case DeviceModel => v.(hwModel := content, pairingCmd := Some(ProvideDeviceManufacturer))
      case DeviceManufacturer => v.(hwManufacturer := content, pairingCmd := Some(ProvideDeviceVersion))
      case DeviceVersion => v.(hwVersion := Some(content), pairingCmd := Some(ProvideFirmwareManufacturer))
      case FirmwareManufacturer => v.(fwManufacturer := content, pairingCmd := Some(ProvideFirmwareVersion))
      case FirmwareVersion => v.(fwVersion := Some(content), pairingCmd := Some(ProvideRegistersSize));
    ResetCommunication(w)
  }

  /**
   * `__registers_size_receiver` once the registers are configured: read the
   * analog structures (AI first) when there are any, else go on to the
   * settings or finish.
   */
  function RegistersSizedView(v: DeviceView, aiCount: nat, aoCount: nat): DeviceView
  {
    var w :=
      if aiCount > 0 then
        v.(readingRegisterAddress := Some(0), readingRegisterType := Some(AI), pairingCmd := Some(ProvideRegistersStructure))
      else if aoCount > 0 then
        v.(readingRegisterAddress := Some(0), readingRegisterType := Some(AO), pairingCmd := Some(ProvideRegistersStructure))
      else if v.settingsSupport then v.(pairingCmd := Some(ProvideSettingsSize))
      else v.(pairingCmd := Some(Finished));
    ResetCommunication(w)
  }

  /** `__settings_size_receiver` once the settings are configured: device settings first. */
  function SettingsSizedView(v: DeviceView, deviceCount: nat, registerCount: nat): DeviceView
  {
    var w :=
      if deviceCount > 0 then
        v.(readingSettingAddress := Some(0), readingSettingType := Some(DeviceSetting), pairingCmd := Some(ProvideSettingsStructure))
      else if registerCount > 0 then
        v.(readingSettingAddress := Some(0), readingSettingType := Some(RegisterSetting), pairingCmd := Some(ProvideSettingsStructure))
      else v.(pairingCmd := Some(Finished));
    ResetCommunication(w)
  }

  /** `__pairing_finished_receiver`: the state the device reports, and no pairing command. */
  function FinishedView(v: DeviceView, reported: Byte, now: int): DeviceView
  {
    WithState(v, FbBusHelpers.TransformStateForGateway(reported), now).(pairingCmd := None)
  }

  // ---------------------------------------------------------------------------
  // Properties of the receivers

  /** Every receiver leaves the device waiting for nothing, with no attempts counted. */
  lemma ReceiversResetCommunication(v: DeviceView, current: int, p: seq<Byte>, r: PairingResponse, content: string,
                                    a: nat, b: nat)
    requires |p| >= 10 && DescriptionResponse(r)
    ensures var ws := [AddressedView(v, current), AcceptedView(v), AboutInfoView(v, p), DescribedView(v, r, content),
                       RegistersSizedView(v, a, b), SettingsSizedView(v, a, b)];
            forall i :: 0 <= i < |ws| ==> ws[i].waitingForPacket.None? && ws[i].attempts == 0
  {
  }

  /**
   * A device reporting no address is told one next; any other continues
   * with the about info; a device registered without an address adopts the
   * one it reports.
   */
  lemma AddressedViewNext(v: DeviceView, current: int)
    ensures current == AddressNotAssigned <==> AddressedView(v, current).pairingCmd == Some(SetAddress)
    ensures current == AddressNotAssigned ==> AddressedView(v, current).state == GT.Connected
    ensures current != AddressNotAssigned ==>
              AddressedView(v, current).state == GT.Init &&
              AddressedView(v, current).pairingCmd == Some(ProvideAboutInfo)
    ensures v.address == AddressNotAssigned && current != AddressNotAssigned ==> AddressedView(v, current).address == current
    ensures v.address != AddressNotAssigned ==> AddressedView(v, current).address == v.address
  {
  }

  /** The maximum packet length is the big-endian word at bytes 2-3, and a flag is on only for 0xFF00. */
  lemma AboutInfoDecodes(v: DeviceView, p: seq<Byte>)
    requires |p| >= 10
    ensures AboutInfoView(v, p).maxPacketLength == p[2] as int * 256 + p[3] as int
    ensures AboutInfoView(v, p).descriptionSupport <==> p[4] == 0xFF && p[5] == 0
    ensures AboutInfoView(v, p).settingsSupport <==> p[6] == 0xFF && p[7] == 0
    ensures AboutInfoView(v, p).pubSubSupport <==> p[8] == 0xFF && p[9] == 0
    ensures AboutInfoView(v, p).pairingCmd == Some(if p[4] == 0xFF && p[5] == 0 then ProvideDeviceModel else ProvideRegistersSize)
  {
  }

  /** Answering the due description command with its response, once per text in `texts`. */
  function DescribeAll(v: DeviceView, texts: seq<string>): DeviceView
    requires v.pairingCmd.Some?
    decreases |texts|
  {
    if texts == [] then v
    else
      var r := ResponseTo(v.pairingCmd.value);
      if DescriptionResponse(r) then DescribeAll(DescribedView(v, r, texts[0]), texts[1..]) else v
  }

  /**
   * Starting at PROVIDE_DEVICE_MODEL and answering each command with its own
   * response, five texts fill the model, manufacturer and version of the
   * hardware and the manufacturer and version of the firmware, in that
   * order, and leave the device asking for its register sizes.
   */
  lemma {:induction false} DescriptionChain(v: DeviceView, texts: seq<string>)
    requires v.pairingCmd == Some(ProvideDeviceModel) && |texts| == 5
    ensures var w := DescribeAll(v, texts);
            w.hwModel == texts[0] && w.hwManufacturer == texts[1] && w.hwVersion == Some(texts[2]) &&
            w.fwManufacturer == texts[3] && w.fwVersion == Some(texts[4]) &&
            w.pairingCmd == Some(ProvideRegistersSize) && w.state == v.state && w.address == v.address
  {
    var v1 := DescribedView(v, DeviceModel, texts[0]);
    var v2 := DescribedView(v1, DeviceManufacturer, texts[1]);
    var v3 := DescribedView(v2, DeviceVersion, texts[2]);
    var v4 := DescribedView(v3, FirmwareManufacturer, texts[3]);
    var v5 := DescribedView(v4, FirmwareVersion, texts[4]);
    assert DescribeAll(v5, texts[5..]) == v5;
    assert DescribeAll(v4, texts[4..]) == v5;
    assert DescribeAll(v3, texts[3..]) == v5;
    assert DescribeAll(v2, texts[2..]) == v5;
    assert DescribeAll(v1, texts[1..]) == v5;
  }

  /**
   * After the register sizes the device asks for a structure exactly when
   * it has analog registers, pointing at address 0 of AI when there are any
   * and of AO otherwise; without them it asks for the settings or finishes.
   */
  lemma RegistersSizedNext(v: DeviceView, ai: nat, ao: nat)
    ensures var w := RegistersSizedView(v, ai, ao);
            (w.pairingCmd == Some(ProvideRegistersStructure) <==> ai + ao > 0) &&
            (ai > 0 ==> w.readingRegisterType == Some(AI) && w.readingRegisterAddress == Some(0)) &&
            (ai == 0 && ao > 0 ==> w.readingRegisterType == Some(AO) && w.readingRegisterAddress == Some(0)) &&
            (ai + ao == 0 ==> w.pairingCmd == Some(if v.settingsSupport then ProvideSettingsSize else Finished))
  {
  }

  /** After the setting sizes the device asks for a structure exactly when it has settings, device settings first. */
  lemma SettingsSizedNext(v: DeviceView, d: nat, r: nat)
    ensures var w := SettingsSizedView(v, d, r);
            (w.pairingCmd == Some(ProvideSettingsStructure) <==> d + r > 0) &&
            (d > 0 ==> w.readingSettingType == Some(DeviceSetting) && w.readingSettingAddress == Some(0)) &&
            (d == 0 && r > 0 ==> w.readingSettingType == Some(RegisterSetting) && w.readingSettingAddress == Some(0)) &&
            (d + r == 0 ==> w.pairingCmd == Some(Finished))
  {
  }

  /** A finished device holds RUNNING or STOPPED as it reported them, UNKNOWN for anything else, and no command. */
  lemma FinishedState(v: DeviceView, reported: Byte, now: int)
    ensures FinishedView(v, reported, now).pairingCmd.None?
    ensures FinishedView(v, reported, now).state == GT.Running <==> reported == 1
    ensures FinishedView(v, reported, now).state == GT.Stopped <==> reported == 2
    ensures reported != 1 && reported != 2 ==> FinishedView(v, reported, now).state == GT.Unknown
  {
  }
}
