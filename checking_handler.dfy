// Keeping track of whether devices are alive
// (miniserver_gateway/connectors/fb_bus/handlers/checking_handler.py).
//
// A device that did not answer five packets in a row is marked LOST. A lost
// device is pinged once 15 s have passed both since it was lost and since
// the last packet; a PONG brings it back to UNKNOWN, and a device in state
// UNKNOWN is asked for its state.

module FbBusCheckingHandler {
  import opened Common
  import opened FbBusTypes
  import opened FbBusDevice
  import opened FbBusConnector
  import FbBusHelpers
  import GT = GatewayTypes

  /** `__MAX_TRANSMIT_ATTEMPTS`. */
  const MaxTransmitAttempts: nat := 5

  /** `__PING_DELAY`: 15 s. */
  const PingDelay: int := 15000

  /** What `handle` sends to a device. */
  datatype Probe = NoProbe | PingProbe | StateProbe

  /** The device after the lost check at the start of `handle`. */
  function AfterLostCheck(v: DeviceView, now: int): DeviceView
  {
    if v.attempts >= MaxTransmitAttempts then WithState(v, GT.Lost, now) else v
  }

  /** The probe `handle` sends after the lost check. */
  function ProbeFor(v: DeviceView, now: int): (r: Probe)
    ensures r == PingProbe ==> now - v.lastPacketTimestamp >= PingDelay && (v.state == GT.Lost || v.attempts >= MaxTransmitAttempts)
    ensures r == StateProbe <==> v.state == GT.Unknown && v.attempts < MaxTransmitAttempts
  {
    var w := AfterLostCheck(v, now);
    if w.state == GT.Lost && now - w.lostTimestamp >= PingDelay && now - w.lastPacketTimestamp >= PingDelay then PingProbe
    else if w.state == GT.Unknown then StateProbe
    else NoProbe
  }

  function ProbePacket(p: Probe): Option<seq<int>>
  {
    match p
    case NoProbe => None
    case PingProbe => Some([PacketCode(Ping), Terminator])
    case StateProbe => Some([PacketCode(GetState), Terminator])
  }

  /** `__send_ping_handler`: the attempt and its time count even when sending fails. */
  function AfterPing(v: DeviceView, now: int, sendOk: bool): DeviceView
  {
    v.(waitingForPacket := if sendOk then Some(Pong) else None, lastPacketTimestamp := now, attempts := v.attempts + 1)
  }

  /** `__send_get_device_state_handler`: reset when sending fails. */
  function AfterStateRequest(v: DeviceView, now: int, sendOk: bool): DeviceView
  {
    var w := v.(attempts := v.attempts + 1, waitingForPacket := Some(GetState), lastPacketTimestamp := now);
    if sendOk then w else ResetCommunication(w)
  }

  /** The device after `handle`. */
  function CheckView(v: DeviceView, now: int, sendOk: bool): (r: DeviceView)
    ensures r.state == if v.attempts >= MaxTransmitAttempts then GT.Lost else v.state
    ensures r.attempts <= v.attempts + 1
    ensures ProbeFor(v, now) != NoProbe ==> r.lastPacketTimestamp == now
  {
    var w := AfterLostCheck(v, now);
    match ProbeFor(v, now)
    case NoProbe => w
    case PingProbe => AfterPing(w, now, sendOk)
    case StateProbe => AfterStateRequest(w, now, sendOk)
  }

  // ---------------------------------------------------------------------------
  // Properties

  /**
   * Five unanswered packets mark the device LOST, stamped now, with its
   * communication cleared; it is not pinged in the same round.
   */
  lemma MaxAttemptsMarksLost(v: DeviceView, now: int, sendOk: bool)
    requires v.attempts >= MaxTransmitAttempts
    ensures ProbeFor(v, now) == NoProbe
    ensures var w := CheckView(v, now, sendOk);
            w.state == GT.Lost && w.lostTimestamp == now && w.attempts == 0 && w.waitingForPacket.None?
  {
  }

  /** A device with fewer attempts keeps its state through the lost check. */
  lemma FewAttemptsKeepState(v: DeviceView, now: int, sendOk: bool)
    requires v.attempts < MaxTransmitAttempts
    ensures CheckView(v, now, sendOk).state == v.state
    ensures ProbeFor(v, now) == PingProbe <==>
            v.state == GT.Lost && now - v.lostTimestamp >= PingDelay && now - v.lastPacketTimestamp >= PingDelay
    ensures ProbeFor(v, now) == StateProbe <==> v.state == GT.Unknown
  {
  }

  /**
   * After a ping, the same device is not pinged again within the ping delay
   * (unless five attempts have piled up, which marks it lost anew).
   */
  lemma PingAtMostOncePerDelay(v: DeviceView, now: int, sendOk: bool, later: int)
    requires ProbeFor(v, now) == PingProbe
    requires later - now < PingDelay
    ensures ProbeFor(CheckView(v, now, sendOk), later) == NoProbe
  {
  }

  /** A device brought back by PONG is asked for its state at the next check. */
  lemma PongThenStateRequest(v: DeviceView, now: int)
    ensures ProbeFor(Alive(v), now) == StateProbe
  {
  }

  /** A ping goes only to a lost device, a state request only to one in state UNKNOWN. */
  lemma ProbesMatchState(v: DeviceView, now: int)
    ensures ProbeFor(v, now) == PingProbe ==> AfterLostCheck(v, now).state == GT.Lost
    ensures ProbeFor(v, now) == StateProbe ==> AfterLostCheck(v, now).state == GT.Unknown
    ensures ProbeFor(v, now) == PingProbe ==> v.attempts < MaxTransmitAttempts
  {
  }

  // ---------------------------------------------------------------------------
  // The handler

  /**
   * `handle`: the lost check, then a ping or a state request. A device
   * marked LOST has its new state propagated to the container.
   */
  method Handle(conn: Connector, device: Device, now: int, sendOk: bool) returns (packet: Option<seq<int>>)
    modifies device, conn
    ensures device.View() == CheckView(old(device.View()), now, sendOk)
    ensures packet == ProbePacket(ProbeFor(old(device.View()), now))
    ensures conn.containerCalls == old(conn.containerCalls) +
              if old(device.attempts) >= MaxTransmitAttempts then [DeviceStatePropagated(device.id, GT.Lost)] else []
    ensures conn.devices == old(conn.devices) && conn.registers == old(conn.registers) &&
            conn.deviceSettings == old(conn.deviceSettings) && conn.registerSettings == old(conn.registerSettings)
  {
    if device.attempts >= MaxTransmitAttempts {
      device.SetState(GT.Lost, now);
      conn.PropagateDeviceState(device);
    }
    if device.IsLost() && now - device.lostTimestamp >= PingDelay && now - device.lastPacketTimestamp >= PingDelay {
      packet := SendPing(device, now, sendOk);
    } else if device.state == GT.Unknown {
      packet := SendGetState(device, now, sendOk);
    } else {
      packet := None;
    }
  }

  /** `__send_ping_handler`: PING goes out; the attempt and its time count whether or not it was sent. */
  method SendPing(device: Device, now: int, sendOk: bool) returns (packet: Option<seq<int>>)
    modifies device
    ensures device.View() == AfterPing(old(device.View()), now, sendOk)
    ensures packet == ProbePacket(PingProbe)
  {
    packet := Some([PacketCode(Ping), Terminator]);
    if sendOk {
      device.SetWaitingForPacket(Some(Pong));
    } else {
      device.SetWaitingForPacket(None);
    }
    device.SetLastPacketTimestamp(now);
    device.IncrementAttempts();
  }

  /** `__send_get_device_state_handler`: GET_STATE goes out; a failed send resets the communication state. */
  method SendGetState(device: Device, now: int, sendOk: bool) returns (packet: Option<seq<int>>)
    modifies device
    ensures device.View() == AfterStateRequest(old(device.View()), now, sendOk)
    ensures packet == ProbePacket(StateProbe)
  {
    packet := Some([PacketCode(GetState), Terminator]);
    device.IncrementAttempts();
    device.SetWaitingForPacket(Some(GetState));
    device.SetLastPacketTimestamp(now);
    if !sendOk {
      device.ResetCommunicationState();
    }
  }

  /** The state a GET_STATE or REPORT_STATE reply carries, when the reply has the expected length of three bytes. */
  function ReportedState(payload: seq<Byte>): Option<GT.DeviceState>
  {
    if |payload| != 3 then None else Some(FbBusHelpers.TransformStateForGateway(payload[1]))
  }

  /** The sender after `receive`. */
  function ReceivedView(packet: Packet, payload: seq<Byte>, v: DeviceView, now: int): DeviceView
  {
    if packet == Pong then Alive(v)
    else if (packet == GetState || packet == ReportState) && ReportedState(payload).Some? then
      WithState(v, ReportedState(payload).value, now)
    else v
  }

  /** Whether `receive` changes the sender's state, and so propagates it. */
  predicate ChangesState(packet: Packet, payload: seq<Byte>)
  {
    packet == Pong || ((packet == GetState || packet == ReportState) && ReportedState(payload).Some?)
  }

  /**
   * `receive`: PONG brings the sender back alive, GET_STATE and
   * REPORT_STATE set its state, SET_STATE and every other packet change
   * nothing. Only the sender changes, and a sender whose state was set has
   * that state propagated to the container.
   */
  method Receive(conn: Connector, packet: Packet, sender: int, payload: seq<Byte>, now: int) returns (target: Option<Device>)
    modifies conn, conn.devices
    ensures target == old(DeviceAt(conn.devices, sender))
    ensures conn.devices == old(conn.devices) && conn.registers == old(conn.registers) &&
            conn.deviceSettings == old(conn.deviceSettings) && conn.registerSettings == old(conn.registerSettings)
    ensures target.Some? ==> target.value.View() == ReceivedView(packet, payload, old(target.value.View()), now)
    ensures forall e :: e in conn.devices && Some(e) != target ==> e.View() == old(e.View())
    ensures conn.containerCalls == old(conn.containerCalls) +
              if target.Some? && ChangesState(packet, payload)
              then [DeviceStatePropagated(target.value.id, target.value.state)] else []
  {
    target := conn.GetDeviceByAddress(sender);
    if target.Some? {
      ReceiveFrom(conn, target.value, packet, payload, now);
    }
  }

  /** The part of `receive` for a known sender `d`. */
  method ReceiveFrom(conn: Connector, d: Device, packet: Packet, payload: seq<Byte>, now: int)
    modifies conn, d
    ensures conn.devices == old(conn.devices) && conn.registers == old(conn.registers) &&
            conn.deviceSettings == old(conn.deviceSettings) && conn.registerSettings == old(conn.registerSettings)
    ensures d.View() == ReceivedView(packet, payload, old(d.View()), now)
    ensures conn.containerCalls == old(conn.containerCalls) +
              if ChangesState(packet, payload) then [DeviceStatePropagated(d.id, d.state)] else []
  {
    if packet == Pong {
      d.SetAlive();
    } else if (packet == GetState || packet == ReportState) && |payload| == 3 {
      d.SetState(FbBusHelpers.TransformStateForGateway(payload[1]), now);
    } else {
      return;
    }
    conn.PropagateDeviceState(d);
  }

  /** A state reply puts the device in RUNNING, STOPPED or UNKNOWN, by the state byte. */
  lemma StateReplyStates(payload: seq<Byte>)
    requires ReportedState(payload).Some?
    ensures ReportedState(payload).value == GT.Running <==> payload[1] == DeviceStatePayloadCode(Running)
    ensures ReportedState(payload).value == GT.Stopped <==> payload[1] == DeviceStatePayloadCode(Stopped)
    ensures ReportedState(payload).value in {GT.Running, GT.Stopped, GT.Unknown}
  {
  }
}
