// Gateway-wide enumerations (miniserver_gateway/db/types.py): the states a
// device can be in and the data types of properties, each with the string
// value the enum carries.

module GatewayTypes {
  import opened Common

  datatype DeviceState =
    | Connected | Disconnected | Init | Ready | Running
    | Sleeping | Stopped | Lost | Alert | Unknown

  function DeviceStateValue(s: DeviceState): (v: string)
    ensures DeviceStateFromValue(v) == Some(s)
  {
    match s
    case Connected => "connected"
    case Disconnected => "disconnected"
    case Init => "init"
    case Ready => "ready"
    case Running => "running"
    case Sleeping => "sleeping"
    case Stopped => "stopped"
    case Lost => "lost"
    case Alert => "alert"
    case Unknown => "unknown"
  }

  /** `DeviceStates(v)`: the member whose value is v, or None where the lookup raises. */
  function DeviceStateFromValue(v: string): Option<DeviceState>
  {
    if v == "connected" then Some(Connected)
    else if v == "disconnected" then Some(Disconnected)
    else if v == "init" then Some(Init)
    else if v == "ready" then Some(Ready)
    else if v == "running" then Some(Running)
    else if v == "sleeping" then Some(Sleeping)
    else if v == "stopped" then Some(Stopped)
    else if v == "lost" then Some(Lost)
    else if v == "alert" then Some(Alert)
    else if v == "unknown" then Some(Unknown)
    else None
  }

  datatype DataType =
    | Char | UChar | Short | UShort | Int | UInt
    | Float | Boolean | String | Enum | Color

  function DataTypeValue(t: DataType): (v: string)
    ensures DataTypeFromValue(v) == Some(t)
  {
    match t
    case Char => "char"
    case UChar => "uchar"
    case Short => "short"
    case UShort => "ushort"
    case Int => "int"
    case UInt => "uint"
    case Float => "float"
    case Boolean => "bool"
    case String => "string"
    case Enum => "enum"
    case Color => "color"
  }

  function DataTypeFromValue(v: string): Option<DataType>
  {
    if v == "char" then Some(Char)
    else if v == "uchar" then Some(UChar)
    else if v == "short" then Some(Short)
    else if v == "ushort" then Some(UShort)
    else if v == "int" then Some(Int)
    else if v == "uint" then Some(UInt)
    else if v == "float" then Some(Float)
    else if v == "bool" then Some(Boolean)
    else if v == "string" then Some(String)
    else if v == "enum" then Some(Enum)
    else if v == "color" then Some(Color)
    else None
  }

  /** Both enums are `@unique`: distinct members carry distinct values. */
  lemma ValuesUnique(s1: DeviceState, s2: DeviceState, t1: DataType, t2: DataType)
    ensures DeviceStateValue(s1) == DeviceStateValue(s2) ==> s1 == s2
    ensures DataTypeValue(t1) == DataTypeValue(t2) ==> t1 == t2
  {
    if DeviceStateValue(s1) == DeviceStateValue(s2) {
      assert DeviceStateFromValue(DeviceStateValue(s1)) == Some(s2);
    }
    if DataTypeValue(t1) == DataTypeValue(t2) {
      assert DataTypeFromValue(DataTypeValue(t1)) == Some(t2);
    }
  }
}
