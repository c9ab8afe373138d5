// The code tables of the FastyBird bus protocol
// (miniserver_gateway/connectors/fb_bus/types/types.py). Every table is an
// enumeration with a code per member; `has_value(v)` holds when some member
// carries the code v.

module FbBusTypes {
  import opened Common

  // ---------------------------------------------------------------------------
  // Packets

  datatype Packet =
    | PairDevice | ReadSingleRegister | ReadMultipleRegisters
    | WriteSingleRegister | WriteMultipleRegisters | ReportSingleRegister
    | ReadOneConfiguration | WriteOneConfiguration | ReportOneConfiguration
    | Ping | Pong | Hello | GetState | SetState | ReportState | ControlDevice
    | PubsubBroadcast | PubsubSubscribe | PubsubUnsubscribe | Exception

  function PacketCode(p: Packet): (c: int)
    ensures PacketFromCode(c) == Some(p)
  {
    match p
    case PairDevice => 0x01
    case ReadSingleRegister => 0x03
    case ReadMultipleRegisters => 0x05
    case WriteSingleRegister => 0x07
    case WriteMultipleRegisters => 0x09
    case ReportSingleRegister => 0x0B
    case ReadOneConfiguration => 0x0D
    case WriteOneConfiguration => 0x0F
    case ReportOneConfiguration => 0x11
    case Ping => 0x13
    case Pong => 0x15
    case Hello => 0x17
    case GetState => 0x19
    case SetState => 0x1B
    case ReportState => 0x1D
    case ControlDevice => 0x1F
    case PubsubBroadcast => 0x21
    case PubsubSubscribe => 0x23
    case PubsubUnsubscribe => 0x25
    case Exception => 0x63
  }

  /** `Packets(v)`: the member with code v, or None where the enum lookup raises. */
  function PacketFromCode(v: int): (r: Option<Packet>)
  {
    match v
    case 0x01 => Some(PairDevice)
    case 0x03 => Some(ReadSingleRegister)
    case 0x05 => Some(ReadMultipleRegisters)
    case 0x07 => Some(WriteSingleRegister)
    case 0x09 => Some(WriteMultipleRegisters)
    case 0x0B => Some(ReportSingleRegister)
    case 0x0D => Some(ReadOneConfiguration)
    case 0x0F => Some(WriteOneConfiguration)
    case 0x11 => Some(ReportOneConfiguration)
    case 0x13 => Some(Ping)
    case 0x15 => Some(Pong)
    case 0x17 => Some(Hello)
    case 0x19 => Some(GetState)
    case 0x1B => Some(SetState)
    case 0x1D => Some(ReportState)
    case 0x1F => Some(ControlDevice)
    case 0x21 => Some(PubsubBroadcast)
    case 0x23 => Some(PubsubSubscribe)
    case 0x25 => Some(PubsubUnsubscribe)
    case 0x63 => Some(Exception)
    case _ => None
  }

  predicate PacketsHasValue(v: int)
  {
    PacketFromCode(v).Some?
  }

  /** `Packets.has_value` holds exactly for the codes of its members, which are all odd and distinct. */
  lemma PacketsHasValueExactly(v: int)
    ensures PacketsHasValue(v) <==> exists p :: PacketCode(p) == v
    ensures PacketsHasValue(v) ==> v % 2 == 1
    ensures PacketsHasValue(v) ==> PacketCode(PacketFromCode(v).value) == v
  {
    if PacketsHasValue(v) {
      assert PacketCode(PacketFromCode(v).value) == v;
    }
  }

  lemma PacketCodesUnique(p: Packet, q: Packet)
    ensures PacketCode(p) == PacketCode(q) ==> p == q
  {
  }

  // ---------------------------------------------------------------------------
  // Packet contents and protocol version

  const Terminator: int := 0x00
  const DataSpace: int := 0x20
  const ProtocolV1: int := 0x01

  // ---------------------------------------------------------------------------
  // Pairing commands and responses

  datatype PairingCommand =
    | ProvideAddress | SetAddress | ProvideAboutInfo | ProvideDeviceModel
    | ProvideDeviceManufacturer | ProvideDeviceVersion | ProvideFirmwareManufacturer
    | ProvideFirmwareVersion | ProvideRegistersSize | ProvideRegistersStructure
    | ProvideSettingsSize | ProvideSettingsStructure | Finished

  function CommandCode(c: PairingCommand): (v: int)
    ensures CommandFromCode(v) == Some(c)
  {
    match c
    case ProvideAddress => 0x01
    case SetAddress => 0x02
    case ProvideAboutInfo => 0x03
    case ProvideDeviceModel => 0x04
    case ProvideDeviceManufacturer => 0x05
    case ProvideDeviceVersion => 0x06
    case ProvideFirmwareManufacturer => 0x07
    case ProvideFirmwareVersion => 0x08
    case ProvideRegistersSize => 0x09
    case ProvideRegistersStructure => 0x0A
    case ProvideSettingsSize => 0x0B
    case ProvideSettingsStructure => 0x0C
    case Finished => 0x0D
  }

  function CommandFromCode(v: int): Option<PairingCommand>
  {
    match v
    case 0x01 => Some(ProvideAddress)
    case 0x02 => Some(SetAddress)
    case 0x03 => Some(ProvideAboutInfo)
    case 0x04 => Some(ProvideDeviceModel)
    case 0x05 => Some(ProvideDeviceManufacturer)
    case 0x06 => Some(ProvideDeviceVersion)
    case 0x07 => Some(ProvideFirmwareManufacturer)
    case 0x08 => Some(ProvideFirmwareVersion)
    case 0x09 => Some(ProvideRegistersSize)
    case 0x0A => Some(ProvideRegistersStructure)
    case 0x0B => Some(ProvideSettingsSize)
    case 0x0C => Some(ProvideSettingsStructure)
    case 0x0D => Some(Finished)
    case _ => None
  }

  datatype PairingResponse =
    | DeviceAddress | AddressAccepted | AboutInfo | DeviceModel
    | DeviceManufacturer | DeviceVersion | FirmwareManufacturer
    | FirmwareVersion | RegistersSize | RegistersStructure
    | SettingsSize | SettingsStructure | PairingFinished

  function ResponseCode(r: PairingResponse): (v: int)
    ensures ResponseFromCode(v) == Some(r)
  {
    match r
    case DeviceAddress => 0x51
    case AddressAccepted => 0x52
    case AboutInfo => 0x53
    case DeviceModel => 0x54
    case DeviceManufacturer => 0x55
    case DeviceVersion => 0x56
    case FirmwareManufacturer => 0x57
    case FirmwareVersion => 0x58
    case RegistersSize => 0x59
    case RegistersStructure => 0x5A
    case SettingsSize => 0x5B
    case SettingsStructure => 0x5C
    case PairingFinished => 0x5D
  }

  function ResponseFromCode(v: int): Option<PairingResponse>
  {
    match v
    case 0x51 => Some(DeviceAddress)
    case 0x52 => Some(AddressAccepted)
    case 0x53 => Some(AboutInfo)
    case 0x54 => Some(DeviceModel)
    case 0x55 => Some(DeviceManufacturer)
    case 0x56 => Some(DeviceVersion)
    case 0x57 => Some(FirmwareManufacturer)
    case 0x58 => Some(FirmwareVersion)
    case 0x59 => Some(RegistersSize)
    case 0x5A => Some(RegistersStructure)
    case 0x5B => Some(SettingsSize)
    case 0x5C => Some(SettingsStructure)
    case 0x5D => Some(PairingFinished)
    case _ => None
  }

  /** The response a device sends to a pairing command. */
  function ResponseTo(c: PairingCommand): PairingResponse
  {
    match c
    case ProvideAddress => DeviceAddress
    case SetAddress => AddressAccepted
    case ProvideAboutInfo => AboutInfo
    case ProvideDeviceModel => DeviceModel
    case ProvideDeviceManufacturer => DeviceManufacturer
    case ProvideDeviceVersion => DeviceVersion
    case ProvideFirmwareManufacturer => FirmwareManufacturer
    case ProvideFirmwareVersion => FirmwareVersion
    case ProvideRegistersSize => RegistersSize
    case ProvideRegistersStructure => RegistersStructure
    case ProvideSettingsSize => SettingsSize
    case ProvideSettingsStructure => SettingsStructure
    case Finished => PairingFinished
  }

  /** Each response code is its command's code plus 0x50, and every response answers exactly one command. */
  lemma ResponseCodeIsCommandPlus50(c: PairingCommand, r: PairingResponse)
    ensures ResponseCode(ResponseTo(c)) == CommandCode(c) + 0x50
    ensures (ResponseTo(c) == r) <==> (ResponseCode(r) == CommandCode(c) + 0x50)
  {
  }

  // ---------------------------------------------------------------------------
  // Device states as the bus reports them

  datatype DeviceStatePayload = Running | Stopped | Pairing | Error

  function DeviceStatePayloadCode(s: DeviceStatePayload): int
  {
    match s
    case Running => 0x01
    case Stopped => 0x02
    case Pairing => 0x03
    case Error => 0x04
  }

  // ---------------------------------------------------------------------------
  // Data types

  datatype DataType =
    | Unknown | UInt8 | UInt16 | UInt32 | Int8 | Int16 | Int32
    | Float32 | Bool | Time | Date | DateTime

  function DataTypeCode(t: DataType): (v: int)
    ensures DataTypeFromCode(v) == Some(t)
  {
    match t
    case Unknown => 0xFF
    case UInt8 => 0x01
    case UInt16 => 0x02
    case UInt32 => 0x03
    case Int8 => 0x04
    case Int16 => 0x05
    case Int32 => 0x06
    case Float32 => 0x07
    case Bool => 0x08
    case Time => 0x09
    case Date => 0x0A
    case DateTime => 0x0B
  }

  function DataTypeFromCode(v: int): Option<DataType>
  {
    match v
    case 0xFF => Some(Unknown)
    case 0x01 => Some(UInt8)
    case 0x02 => Some(UInt16)
    case 0x03 => Some(UInt32)
    case 0x04 => Some(Int8)
    case 0x05 => Some(Int16)
    case 0x06 => Some(Int32)
    case 0x07 => Some(Float32)
    case 0x08 => Some(Bool)
    case 0x09 => Some(Time)
    case 0x0A => Some(Date)
    case 0x0B => Some(DateTime)
    case _ => None
  }

  /** `DataTypes.has_value(v)` holds iff v is 0x01..0x0B or 0xFF. */
  lemma DataTypesHasValue(v: int)
    ensures DataTypeFromCode(v).Some? <==> (0x01 <= v <= 0x0B || v == 0xFF)
  {
  }

  // ---------------------------------------------------------------------------
  // Register and settings types

  datatype RegisterType = DI | DO | AI | AO

  function RegisterTypeCode(t: RegisterType): (v: int)
    ensures RegisterTypeFromCode(v) == Some(t)
  {
    match t
    case DI => 0x01
    case DO => 0x02
    case AI => 0x03
    case AO => 0x04
  }

  function RegisterTypeFromCode(v: int): (r: Option<RegisterType>)
    ensures r.Some? <==> 1 <= v <= 4
  {
    match v
    case 0x01 => Some(DI)
    case 0x02 => Some(DO)
    case 0x03 => Some(AI)
    case 0x04 => Some(AO)
    case _ => None
  }

  datatype SettingType = DeviceSetting | RegisterSetting

  function SettingTypeCode(t: SettingType): (v: int)
    ensures SettingTypeFromCode(v) == Some(t)
  {
    match t
    case DeviceSetting => 0x01
    case RegisterSetting => 0x02
  }

  function SettingTypeFromCode(v: int): (r: Option<SettingType>)
    ensures r.Some? <==> v == 1 || v == 2
  {
    match v
    case 0x01 => Some(DeviceSetting)
    case 0x02 => Some(RegisterSetting)
    case _ => None
  }
}
