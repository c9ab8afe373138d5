// A device on the FastyBird bus as the connector tracks it
// (miniserver_gateway/connectors/fb_bus/entities/device.py): its address and
// capabilities, its state, the communication counters (attempts, the packet
// it waits for, when the last packet went out, when it was lost) and the
// reading pointers the reading handler advances.
//
// Timestamps are integer milliseconds supplied by the caller.

module FbBusDevice {
  import opened Common
  import opened FbBusTypes
  import GT = GatewayTypes

  type Uuid = nat

  /** The sampling period of a device: 10 s. */
  const SamplingTime: int := 10000

  /** Every mutable field of a device at one moment. */
  datatype DeviceView = DeviceView(
    address: int,
    state: GT.DeviceState,
    serialNumber: string,
    maxPacketLength: int,
    descriptionSupport: bool,
    settingsSupport: bool,
    pubSubSupport: bool,
    hwModel: string,
    hwManufacturer: string,
    hwVersion: Option<string>,
    fwManufacturer: string,
    fwVersion: Option<string>,
    waitingForPacket: Option<Packet>,
    lastPacketTimestamp: int,
    attempts: nat,
    readingRegistersTimestamp: int,
    readingRegisterAddress: Option<int>,
    readingRegisterType: Option<RegisterType>,
    readingSettingsTimestamp: int,
    readingSettingAddress: Option<int>,
    readingSettingType: Option<SettingType>,
    lostTimestamp: int,
    pairingCmd: Option<PairingCommand>)

  /** The device right after `DeviceEntity(...)`: class defaults plus the arguments. */
  function InitialView(address: int, serialNumber: string, maxPacketLength: int,
                       descriptionSupport: bool, settingsSupport: bool, pubSubSupport: bool): (v: DeviceView)
    ensures v.state == GT.Unknown && v.attempts == 0 && v.waitingForPacket.None?
    ensures v.address == address && v.serialNumber == serialNumber && v.maxPacketLength == maxPacketLength
    ensures v.descriptionSupport == descriptionSupport && v.settingsSupport == settingsSupport
    ensures v.pubSubSupport == pubSubSupport
    ensures v.readingRegisterAddress.None? && v.readingSettingAddress.None? && v.lostTimestamp == 0
  {
    DeviceView(address, GT.Unknown, serialNumber, maxPacketLength,
      descriptionSupport, settingsSupport, pubSubSupport,
      "custom", "generic", None, "generic", None,
      None, 0, 0,
      0, None, None,
      0, None, None,
      0, None)
  }

  /** `reset_communication`: forget the awaited packet and the attempts. */
  function ResetCommunication(v: DeviceView): (r: DeviceView)
    ensures r.waitingForPacket.None? && r.attempts == 0
    ensures r.(waitingForPacket := v.waitingForPacket, attempts := v.attempts) == v
  {
    v.(waitingForPacket := None, attempts := 0)
  }

  /**
   * `set_state`: a lost device also records when it was lost and forgets
   * its communication; a ready device restarts both reading timers.
   */
  function WithState(v: DeviceView, s: GT.DeviceState, now: int): DeviceView
  {
    if s == GT.Lost then
      v.(state := s, lostTimestamp := now, waitingForPacket := None, attempts := 0, lastPacketTimestamp := 0)
    else if s == GT.Ready then
      v.(state := s, readingRegistersTimestamp := 0, readingSettingsTimestamp := 0)
    else
      v.(state := s)
  }

  /**
   * `set_state` sets the state; LOST also stamps the loss, forgets the
   * communication and the last-packet time; READY zeroes both reading times;
   * nothing else changes.
   */
  lemma WithStateEffects(v: DeviceView, s: GT.DeviceState, now: int)
    ensures WithState(v, s, now).state == s
    ensures s == GT.Lost ==> var r := WithState(v, s, now);
              r.lostTimestamp == now && r.waitingForPacket.None? && r.attempts == 0 && r.lastPacketTimestamp == 0
    ensures s == GT.Lost ==> WithState(v, s, now).(state := v.state, lostTimestamp := v.lostTimestamp,
              waitingForPacket := v.waitingForPacket, attempts := v.attempts,
              lastPacketTimestamp := v.lastPacketTimestamp) == v
    ensures s == GT.Ready ==> WithState(v, s, now) == v.(state := s, readingRegistersTimestamp := 0, readingSettingsTimestamp := 0)
    ensures s != GT.Lost && s != GT.Ready ==> WithState(v, s, now) == v.(state := s)
  {
  }

  /** `set_alive`: back to UNKNOWN with clean communication and no lost time. */
  function Alive(v: DeviceView): (r: DeviceView)
    ensures r.state == GT.Unknown && r.attempts == 0 && r.waitingForPacket.None? && r.lostTimestamp == 0
    ensures r.(state := v.state, attempts := v.attempts, waitingForPacket := v.waitingForPacket,
               lostTimestamp := v.lostTimestamp) == v
  {
    ResetCommunication(WithState(v, GT.Unknown, 0)).(lostTimestamp := 0)
  }

  /** `reset_reading_register` / `reset_reading_setting` pick the new reading time this way. */
  function ReadingResetTime(resetTimestamp: bool, now: int): int
  {
    if resetTimestamp then 0 else now
  }

  /** A device lost and then seen alive again keeps everything but the bookkeeping of the loss. */
  lemma LostThenAlive(v: DeviceView, now: int)
    ensures Alive(WithState(v, GT.Lost, now)) == v.(state := GT.Unknown, attempts := 0, waitingForPacket := None,
                                                   lostTimestamp := 0, lastPacketTimestamp := 0)
  {
  }

  class Device {
    const id: Uuid
    var address: int
    var state: GT.DeviceState
    const serialNumber: string
    var maxPacketLength: int
    var descriptionSupport: bool
    var settingsSupport: bool
    var pubSubSupport: bool
    var hwModel: string
    var hwManufacturer: string
    var hwVersion: Option<string>
    var fwManufacturer: string
    var fwVersion: Option<string>
    var waitingForPacket: Option<Packet>
    var lastPacketTimestamp: int
    var attempts: nat
    var readingRegistersTimestamp: int
    var readingRegisterAddress: Option<int>
    var readingRegisterType: Option<RegisterType>
    var readingSettingsTimestamp: int
    var readingSettingAddress: Option<int>
    var readingSettingType: Option<SettingType>
    var lostTimestamp: int
    var pairingCmd: Option<PairingCommand>

    function View(): DeviceView
      reads this
    {
      DeviceView(address, state, serialNumber, maxPacketLength,
        descriptionSupport, settingsSupport, pubSubSupport,
        hwModel, hwManufacturer, hwVersion, fwManufacturer, fwVersion,
        waitingForPacket, lastPacketTimestamp, attempts,
        readingRegistersTimestamp, readingRegisterAddress, readingRegisterType,
        readingSettingsTimestamp, readingSettingAddress, readingSettingType,
        lostTimestamp, pairingCmd)
    }

    constructor (index: Uuid, address: int, serialNumber: string, maxPacketLength: int,
                 descriptionSupport: bool, settingsSupport: bool, pubSubSupport: bool)
      ensures id == index
      ensures View() == InitialView(address, serialNumber, maxPacketLength,
                                    descriptionSupport, settingsSupport, pubSubSupport)
    {
      id := index;
      var v := InitialView(address, serialNumber, maxPacketLength,
                           descriptionSupport, settingsSupport, pubSubSupport);
      this.address := v.address;
      this.state := v.state;
      this.serialNumber := v.serialNumber;
      this.maxPacketLength := v.maxPacketLength;
      this.descriptionSupport := v.descriptionSupport;
      this.settingsSupport := v.settingsSupport;
      this.pubSubSupport := v.pubSubSupport;
      this.hwModel := v.hwModel;
      this.hwManufacturer := v.hwManufacturer;
      this.hwVersion := v.hwVersion;
      this.fwManufacturer := v.fwManufacturer;
      this.fwVersion := v.fwVersion;
      this.waitingForPacket := v.waitingForPacket;
      this.lastPacketTimestamp := v.lastPacketTimestamp;
      this.attempts := v.attempts;
      this.readingRegistersTimestamp := v.readingRegistersTimestamp;
      this.readingRegisterAddress := v.readingRegisterAddress;
      this.readingRegisterType := v.readingRegisterType;
      this.readingSettingsTimestamp := v.readingSettingsTimestamp;
      this.readingSettingAddress := v.readingSettingAddress;
      this.readingSettingType := v.readingSettingType;
      this.lostTimestamp := v.lostTimestamp;
      this.pairingCmd := v.pairingCmd;
    }

    /** `is_ready`: only a RUNNING device is ready (a READY one is not). */
    predicate IsReady()
      reads this
      ensures IsReady() ==> state != GT.Ready && state != GT.Lost
    {
      state == GT.Running
    }

    /** `is_lost`: a LOST device is never the ready one. */
    predicate IsLost()
      reads this
      ensures IsLost() ==> state != GT.Running
    {
      state == GT.Lost
    }

    method SetState(s: GT.DeviceState, now: int)
      modifies this
      ensures View() == WithState(old(View()), s, now)
    {
      if s == GT.Lost {
        MarkLost(now);
      } else if s == GT.Ready {
        MarkReady();
      } else {
        state := s;
      }
    }

    method MarkLost(now: int)
      modifies this
      ensures View() == old(View()).(state := GT.Lost, lostTimestamp := now, waitingForPacket := None,
                                     attempts := 0, lastPacketTimestamp := 0)
    {
      state, lostTimestamp := GT.Lost, now;
      ResetCommunicationState();
      lastPacketTimestamp := 0;
    }

    method MarkReady()
      modifies this
      ensures View() == old(View()).(state := GT.Ready, readingRegistersTimestamp := 0, readingSettingsTimestamp := 0)
    {
      state := GT.Ready;
      readingRegistersTimestamp := 0;
      readingSettingsTimestamp := 0;
    }

    method ResetCommunicationState()
      modifies this
      ensures View() == ResetCommunication(old(View()))
    {
      waitingForPacket := None;
      attempts := 0;
    }

    method IncrementAttempts()
      modifies this
      ensures View() == old(View()).(attempts := old(attempts) + 1)
    {
      attempts := attempts + 1;
    }

    method SetAlive()
      modifies this
      ensures View() == Alive(old(View()))
    {
      SetState(GT.Unknown, 0);
      ResetCommunicationState();
      lostTimestamp := 0;
    }

    method SetWaitingForPacket(p: Option<Packet>)
      modifies this
      ensures View() == old(View()).(waitingForPacket := p)
    {
      waitingForPacket := p;
    }

    method SetLastPacketTimestamp(t: int)
      modifies this
      ensures View() == old(View()).(lastPacketTimestamp := t)
    {
      lastPacketTimestamp := t;
    }

    /** `get_settings_support(b)`: despite its name, a setter. */
    method GetSettingsSupport(b: bool)
      modifies this
      ensures View() == old(View()).(settingsSupport := b)
    {
      settingsSupport := b;
    }

    method SetReadingRegister(address: int, t: RegisterType)
      modifies this
      ensures View() == old(View()).(readingRegisterAddress := Some(address), readingRegisterType := Some(t))
    {
      readingRegisterAddress, readingRegisterType := Some(address), Some(t);
    }

    method ResetReadingRegister(resetTimestamp: bool, now: int)
      modifies this
      ensures View() == old(View()).(readingRegistersTimestamp := ReadingResetTime(resetTimestamp, now),
                                     readingRegisterAddress := None, readingRegisterType := None)
    {
      readingRegistersTimestamp := if resetTimestamp then 0 else now;
      readingRegisterAddress, readingRegisterType := None, None;
    }

    method SetReadingSetting(address: int, t: SettingType)
      modifies this
      ensures View() == old(View()).(readingSettingAddress := Some(address), readingSettingType := Some(t))
    {
      readingSettingAddress, readingSettingType := Some(address), Some(t);
    }

    method ResetReadingSetting(resetTimestamp: bool, now: int)
      modifies this
      ensures View() == old(View()).(readingSettingsTimestamp := ReadingResetTime(resetTimestamp, now),
                                     readingSettingAddress := None, readingSettingType := None)
    {
      readingSettingsTimestamp := if resetTimestamp then 0 else now;
      readingSettingAddress, readingSettingType := None, None;
    }
    method SetAddress(a: int)
      modifies this
      ensures View() == old(View()).(address := a)
    {
      address := a;
    }

    method SetMaxPacketLength(n: int)
      modifies this
      ensures View() == old(View()).(maxPacketLength := n)
    {
      maxPacketLength := n;
    }

    method SetDescriptionSupport(b: bool)
      modifies this
      ensures View() == old(View()).(descriptionSupport := b)
    {
      descriptionSupport := b;
    }

    method SetPubSubSupport(b: bool)
      modifies this
      ensures View() == old(View()).(pubSubSupport := b)
    {
      pubSubSupport := b;
    }

    method SetPairingCmd(c: Option<PairingCommand>)
      modifies this
      ensures View() == old(View()).(pairingCmd := c)
    {
      pairingCmd := c;
    }

    method SetHwModel(s: string)
      modifies this
      ensures View() == old(View()).(hwModel := s)
    {
      hwModel := s;
    }

    method SetHwManufacturer(s: string)
      modifies this
      ensures View() == old(View()).(hwManufacturer := s)
    {
      hwManufacturer := s;
    }

    method SetHwVersion(s: string)
      modifies this
      ensures View() == old(View()).(hwVersion := Some(s))
    {
      hwVersion := Some(s);
    }

    method SetFwManufacturer(s: string)
      modifies this
      ensures View() == old(View()).(fwManufacturer := s)
    {
      fwManufacturer := s;
    }

    method SetFwVersion(s: string)
      modifies this
      ensures View() == old(View()).(fwVersion := Some(s))
    {
      fwVersion := Some(s);
    }
  }
}
