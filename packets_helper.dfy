// Packet names for log messages
// (miniserver_gateway/connectors/fb_bus/utilities/packets_helper.py): a
// table from packet to the name of its enum member, with "UNKNOWN" for a
// packet the table leaves out.

module PacketsHelper {
  import opened Common
  import opened FbBusTypes

  /** The table `PACKET_NAMES`; CONTROL_DEVICE has no entry. */
  function PacketNames(p: Packet): (r: Option<string>)
    ensures r.Some? ==> NameToPacket(r.value) == Some(p)
  {
    match p
    case PairDevice => Some("FB_PACKET_PAIR_DEVICE")
    case ReadSingleRegister => Some("FB_PACKET_READ_SINGLE_REGISTER")
    case ReadMultipleRegisters => Some("FB_PACKET_READ_MULTIPLE_REGISTERS")
    case WriteSingleRegister => Some("FB_PACKET_WRITE_SINGLE_REGISTER")
    case WriteMultipleRegisters => Some("FB_PACKET_WRITE_MULTIPLE_REGISTERS")
    case ReportSingleRegister => Some("FB_PACKET_REPORT_SINGLE_REGISTER")
    case ReadOneConfiguration => Some("FB_PACKET_READ_ONE_CONFIGURATION")
    case WriteOneConfiguration => Some("FB_PACKET_WRITE_ONE_CONFIGURATION")
    case ReportOneConfiguration => Some("FB_PACKET_REPORT_ONE_CONFIGURATION")
    case Ping => Some("FB_PACKET_PING")
    case Pong => Some("FB_PACKET_PONG")
    case Hello => Some("FB_PACKET_HELLO")
    case GetState => Some("FB_PACKET_GET_STATE")
    case SetState => Some("FB_PACKET_SET_STATE")
    case ReportState => Some("FB_PACKET_REPORT_STATE")
    case ControlDevice => None
    case PubsubBroadcast => Some("FB_PACKET_PUBSUB_BROADCAST")
    case PubsubSubscribe => Some("FB_PACKET_PUBSUB_SUBSCRIBE")
    case PubsubUnsubscribe => Some("FB_PACKET_PUBSUB_UNSUBSCRIBE")
    case Exception => Some("FB_PACKET_EXCEPTION")
  }

  /** `PacketsHelper.get_packet_name`: the table entry, or "UNKNOWN"; total, it never raises. */
  function GetPacketName(p: Packet): (name: string)
    ensures PacketNames(p).Some? ==> name == PacketNames(p).value
    ensures name == "UNKNOWN" <==> p == ControlDevice
  {
    match PacketNames(p)
    case Some(n) => n
    case None => "UNKNOWN"
  }

  /** No two packets share a name in the table. */
  lemma PacketNamesDistinct(p: Packet, q: Packet)
    ensures PacketNames(p).Some? && PacketNames(p) == PacketNames(q) ==> p == q
  {
  }

  /** The member a table name belongs to. */
  function NameToPacket(name: string): Option<Packet>
  {
    match name
    case "FB_PACKET_PAIR_DEVICE" => Some(PairDevice)
    case "FB_PACKET_READ_SINGLE_REGISTER" => Some(ReadSingleRegister)
    case "FB_PACKET_READ_MULTIPLE_REGISTERS" => Some(ReadMultipleRegisters)
    case "FB_PACKET_WRITE_SINGLE_REGISTER" => Some(WriteSingleRegister)
    case "FB_PACKET_WRITE_MULTIPLE_REGISTERS" => Some(WriteMultipleRegisters)
    case "FB_PACKET_REPORT_SINGLE_REGISTER" => Some(ReportSingleRegister)
    case "FB_PACKET_READ_ONE_CONFIGURATION" => Some(ReadOneConfiguration)
    case "FB_PACKET_WRITE_ONE_CONFIGURATION" => Some(WriteOneConfiguration)
    case "FB_PACKET_REPORT_ONE_CONFIGURATION" => Some(ReportOneConfiguration)
    case "FB_PACKET_PING" => Some(Ping)
    case "FB_PACKET_PONG" => Some(Pong)
    case "FB_PACKET_HELLO" => Some(Hello)
    case "FB_PACKET_GET_STATE" => Some(GetState)
    case "FB_PACKET_SET_STATE" => Some(SetState)
    case "FB_PACKET_REPORT_STATE" => Some(ReportState)
    case "FB_PACKET_PUBSUB_BROADCAST" => Some(PubsubBroadcast)
    case "FB_PACKET_PUBSUB_SUBSCRIBE" => Some(PubsubSubscribe)
    case "FB_PACKET_PUBSUB_UNSUBSCRIBE" => Some(PubsubUnsubscribe)
    case "FB_PACKET_EXCEPTION" => Some(Exception)
    case _ => None
  }
}
