// The packets the pairing helper sends
// (miniserver_gateway/connectors/fb_bus/utilities/pairing_helper.py).
//
// Every pairing packet starts with PAIR_DEVICE and a pairing command. The
// search for new devices is a broadcast of PROVIDE_ADDRESS; a device that
// has no address yet is told one with SET_ADDRESS and its serial number;
// the structure requests ask for the description of a window of registers
// or settings, sized to what fits in one reply.

module FbBusPairingRequests {
  import opened Common
  import opened FbBusTypes
  import opened FbBusDevice
  import FbBusHelpers

  /** `__MAX_SEARCHING_ATTEMPTS`: broadcasts before the search gives up. */
  const MaxSearchingAttempts: nat := 5

  /** `__MAX_TRANSMIT_ATTEMPTS`: unanswered packets before the pairing device is lost. */
  const MaxTransmitAttempts: nat := 5

  /** `__SEARCHING_DELAY`: 6 s between two broadcasts, in milliseconds. */
  const SearchingDelay: int := 6000

  /** The bytes of a reply header a structure reply carries before its entries. */
  const StructureHeaderLength: nat := 5

  /** Bytes one device setting takes in a settings-structure reply. */
  const DeviceSettingEntryLength: nat := 12

  /** Bytes one register setting takes in a settings-structure reply. */
  const RegisterSettingEntryLength: nat := 15

  // ---------------------------------------------------------------------------
  // Packets

  /** `__broadcast_pairing_request_handler`: ask every unpaired device for its address. */
  function BroadcastRequest(): (r: seq<int>)
    ensures |r| == 3 && PacketFromCode(r[0]) == Some(PairDevice) && CommandFromCode(r[1]) == Some(ProvideAddress)
  {
    [PacketCode(PairDevice), CommandCode(ProvideAddress), Terminator]
  }

  /** `__send_pairing_cmd_handler`: a pairing command with no arguments. */
  function CommandRequest(c: PairingCommand): (r: seq<int>)
    ensures |r| == 3 && PacketFromCode(r[0]) == Some(PairDevice) && CommandFromCode(r[1]) == Some(c)
  {
    [PacketCode(PairDevice), CommandCode(c), Terminator]
  }

  /** `__send_set_address_handler`: the address, then the serial number as a terminated text. */
  function SetAddressRequest(address: int, serial: string): (r: seq<int>)
    ensures |r| >= 4 && PacketFromCode(r[0]) == Some(PairDevice) && CommandFromCode(r[1]) == Some(SetAddress)
    ensures r[2] == address && r[3..] == FbBusHelpers.TextField(serial)
  {
    [PacketCode(PairDevice), CommandCode(SetAddress), address] + FbBusHelpers.TextField(serial)
  }

  /**
   * Python's `round(n / d)` for an integer n: the nearest integer, ties to
   * the even one.
   */
  function RoundHalfEven(n: int, d: int): (q: int)
    requires d > 0
    ensures -d <= 2 * (d * q - n) <= d
    ensures 2 * (d * q - n) == d || 2 * (n - d * q) == d ==> q % 2 == 0
  {
    var f := n / d;
    var r := n % d;
    assert n == d * f + r && 0 <= r < d;
    assert d * (f + 1) == d * f + d;
    if 2 * r < d then f
    else if 2 * r > d then f + 1
    else if f % 2 == 0 then f
    else f + 1
  }

  /**
   * How many entries a structure request asks for, starting at `start` out of
   * `size`, when one reply holds at most `maxCount`: the rest of the entries
   * when they fit, otherwise `maxCount`.
   */
  function StructureLength(size: int, start: int, maxCount: int): (length: int)
    ensures length == if size - start <= maxCount then size - start else maxCount
  {
    var maxReadableAddress := start + maxCount - 1;
    if maxReadableAddress + 1 >= size then
      if start == 0 then size else size - start
    else maxCount
  }

  /** The common layout of both structure requests. */
  function StructureRequest(c: PairingCommand, typeCode: int, start: int, length: int): (r: seq<int>)
    ensures |r| == 8 && PacketFromCode(r[0]) == Some(PairDevice) && CommandFromCode(r[1]) == Some(c) && r[2] == typeCode
    ensures 0 <= start < 0x10000 ==> 256 * r[3] + r[4] == start
    ensures 0 <= length < 0x10000 ==> 256 * r[5] + r[6] == length
  {
    [PacketCode(PairDevice), CommandCode(c), typeCode, HighByte(start), LowByte(start),
     HighByte(length), LowByte(length), Terminator]
  }

  /** Registers of type `t` that fit in one structure reply of a device with this maximum packet length. */
  function RegistersPerReply(maxPacketLength: int): int
  {
    maxPacketLength - StructureHeaderLength
  }

  /** Settings of kind `kind` that fit in one structure reply. */
  function SettingsPerReply(kind: SettingType, maxPacketLength: int): int
  {
    RoundHalfEven(maxPacketLength - StructureHeaderLength,
                  if kind == DeviceSetting then DeviceSettingEntryLength else RegisterSettingEntryLength)
  }

  /**
   * `__send_provide_registers_structure_handler` for a device whose reading
   * pointer is `pointer` and which has `size` registers of the reading pointer's
   * type. None where the source raises: no pointer, or a digital type
   * (digital registers are all BOOL and have no structure to ask for).
   */
  function RegistersStructureRequest(pointer: Option<(int, RegisterType)>, size: int, maxPacketLength: int): (r: Option<seq<int>>)
    ensures r.Some? <==> pointer.Some? && (pointer.value.1 == AI || pointer.value.1 == AO)
    ensures r.Some? ==> |r.value| == 8 && CommandFromCode(r.value[1]) == Some(ProvideRegistersStructure) &&
                        RegisterTypeFromCode(r.value[2]) == Some(pointer.value.1)
  {
    match pointer
    case None => None
    case Some((start, t)) =>
      if t == AI || t == AO then
        Some(StructureRequest(ProvideRegistersStructure, RegisterTypeCode(t), start,
                              StructureLength(size, start, RegistersPerReply(maxPacketLength))))
      else None
  }

  /** `__send_provide_settings_structure_handler`; None where the source raises (no pointer). */
  function SettingsStructureRequest(pointer: Option<(int, SettingType)>, size: int, maxPacketLength: int): (r: Option<seq<int>>)
    ensures r.Some? <==> pointer.Some?
    ensures r.Some? ==> |r.value| == 8 && CommandFromCode(r.value[1]) == Some(ProvideSettingsStructure) &&
                        SettingTypeFromCode(r.value[2]) == Some(pointer.value.1)
  {
    match pointer
    case None => None
    case Some((start, kind)) =>
      Some(StructureRequest(ProvideSettingsStructure, SettingTypeCode(kind), start,
                            StructureLength(size, start, SettingsPerReply(kind, maxPacketLength))))
  }

  /** `__send_data_to_device`: one more attempt, waiting for PAIR_DEVICE; reset when sending failed. */
  function AfterPairingPacket(v: DeviceView, now: int, sendOk: bool): (r: DeviceView)
    ensures r.lastPacketTimestamp == now && r.state == v.state && r.address == v.address
    ensures sendOk ==> r.attempts == v.attempts + 1 && r.waitingForPacket == Some(PairDevice)
    ensures !sendOk ==> r.attempts == 0 && r.waitingForPacket.None?
  {
    var w := v.(attempts := v.attempts + 1, waitingForPacket := Some(PairDevice), lastPacketTimestamp := now);
    if sendOk then w else ResetCommunication(w)
  }

  // ---------------------------------------------------------------------------
  // Properties

  /** A structure request asks for the rest of the entries when they fit, and never for more than fit. */
  lemma StructureLengthBounds(size: int, start: int, maxCount: int)
    requires 0 <= start <= size
    ensures StructureLength(size, start, maxCount) <= maxCount
    ensures start + StructureLength(size, start, maxCount) <= size
    ensures StructureLength(size, start, maxCount) == size - start <==> size - start <= maxCount
    ensures maxCount > 0 && start < size ==> StructureLength(size, start, maxCount) > 0
  {
  }

  /**
   * Asking window after window, each starting where the last one ended,
   * reaches the last entry: the number of requests is positive exactly when
   * entries are left, and each request covers at least one entry.
   */
  function RequestsToRead(size: int, start: int, maxCount: int): (n: nat)
    requires 0 <= start <= size && maxCount > 0
    ensures n <= size - start
    ensures n == 0 <==> start == size
    decreases size - start
  {
    if start == size then 0
    else 1 + RequestsToRead(size, start + StructureLength(size, start, maxCount), maxCount)
  }

  /** A device reads the start and length back out of the request it was sent. */
  lemma StructureRequestDecode(c: PairingCommand, typeCode: Byte, start: int, length: int)
    requires 0 <= start < 65536 && 0 <= length < 65536
    ensures var p := StructureRequest(c, typeCode, start, length);
            |p| == 8 && (forall i :: 0 <= i < |p| ==> 0 <= p[i] < 256) &&
            Word(p[3], p[4]) == start && Word(p[5], p[6]) == length && p[7] == Terminator
  {
    WordRoundTrip(start);
    WordRoundTrip(length);
  }

  /** The registers-structure request exists exactly for a set analog pointer, and asks for what fits. */
  lemma RegistersStructureRequestShape(start: int, t: RegisterType, size: int, maxPacketLength: int)
    requires 0 <= start <= size
    ensures RegistersStructureRequest(Some((start, t)), size, maxPacketLength).Some? <==> t == AI || t == AO
    ensures t == AI || t == AO ==>
              var p := RegistersStructureRequest(Some((start, t)), size, maxPacketLength).value;
              var length := StructureLength(size, start, maxPacketLength - 5);
              p == StructureRequest(ProvideRegistersStructure, RegisterTypeCode(t), start, length) &&
              length <= maxPacketLength - 5 && start + length <= size &&
              (size - start <= maxPacketLength - 5 ==> length == size - start)
  {
  }

  /** The serial number in SET_ADDRESS reads back, with the text helper, as the device's serial number. */
  lemma SetAddressCarriesSerial(address: Byte, serial: string)
    requires forall c :: c in serial ==> 0 < c as int < 256 && c != ' '
    ensures var p := SetAddressRequest(address, serial);
            (forall i :: 0 <= i < |p| ==> 0 <= p[i] < 256) &&
            p[2] == address && |p| == |serial| + 4
    ensures var p: seq<Byte> := SetAddressRequest(address, serial);
            FbBusHelpers.TextAt(p, 3) == serial
  {
    var prefix: seq<Byte> := [PacketCode(PairDevice), CommandCode(SetAddress), address];
    var p := SetAddressRequest(address, serial);
    forall i | 0 <= i < |p|
      ensures 0 <= p[i] < 256
    {
      if i >= 3 && i < |p| - 1 {
        assert serial[i - 3] in serial;
      }
    }
    var q: seq<Byte> := p;
    FbBusHelpers.TextFieldRoundTrip(prefix, serial, [], q);
  }

  /** A failed send leaves the device with no attempts pending; a good one counts the attempt. */
  lemma AfterPairingPacketEffect(v: DeviceView, now: int, sendOk: bool)
    ensures sendOk ==> AfterPairingPacket(v, now, sendOk).attempts == v.attempts + 1 &&
                       AfterPairingPacket(v, now, sendOk).waitingForPacket == Some(PairDevice)
    ensures !sendOk ==> AfterPairingPacket(v, now, sendOk).attempts == 0 &&
                        AfterPairingPacket(v, now, sendOk).waitingForPacket.None?
    ensures AfterPairingPacket(v, now, sendOk).lastPacketTimestamp == now
    ensures AfterPairingPacket(v, now, sendOk).state == v.state
  {
  }
}
