// A register of a bus device (miniserver_gateway/connectors/fb_bus/entities/register.py):
// fixed identity (id, key, channel, device, address, type), a data type with
// the byte size it implies, and the last value read from or written to it.

module FbBusRegister {
  import opened Common
  import opened FbBusTypes
  import opened FbBusDevice

  /**
   * The byte size `set_data_type` records for a data type, given the size the
   * entity had before: time and date types leave it as it was.
   */
  function SizeAfter(t: DataType, previous: nat): (size: nat)
    ensures t in {UInt8, Int8, Bool} ==> size == 1
    ensures t in {UInt16, Int16} ==> size == 2
    ensures t in {UInt32, Int32, Float32} ==> size == 4
    ensures t == Unknown ==> size == 0
    ensures t in {Time, Date, DateTime} ==> size == previous
  {
    match t
    case UInt8 | Int8 => 1
    case UInt16 | Int16 => 2
    case UInt32 | Int32 | Float32 => 4
    case Bool => 1
    case Unknown => 0
    case _ => previous
  }

  /**
   * Setting the same data type again changes nothing, and after any type
   * with a byte layout the size no longer depends on the history.
   */
  lemma SizeAfterIdempotent(t: DataType, previous: nat, other: nat)
    ensures SizeAfter(t, SizeAfter(t, previous)) == SizeAfter(t, previous)
    ensures t !in {Time, Date, DateTime} ==> SizeAfter(t, previous) == SizeAfter(t, other)
    ensures SizeAfter(t, previous) <= 4 || SizeAfter(t, previous) == previous
  {
  }

  class Register {
    const id: Uuid
    const key: string
    const channelId: Uuid
    const deviceId: Uuid
    const address: int
    const registerType: RegisterType
    var dataType: DataType
    var size: nat
    var value: Value

    /** `RegisterEntity(...)`: the size starts at 0 and goes through `set_data_type`; the value starts as None. */
    constructor (index: Uuid, key: string, channelId: Uuid, deviceId: Uuid,
                 address: int, registerType: RegisterType, dataType: DataType)
      ensures this.id == index && this.key == key && this.channelId == channelId
      ensures this.deviceId == deviceId && this.address == address && this.registerType == registerType
      ensures this.dataType == dataType && size == SizeAfter(dataType, 0) && value == VNull
    {
      this.id := index;
      this.key := key;
      this.channelId := channelId;
      this.deviceId := deviceId;
      this.address := address;
      this.registerType := registerType;
      this.dataType := dataType;
      this.size := SizeAfter(dataType, 0);
      this.value := VNull;
    }

    /** `is_writable`: digital and analog outputs. */
    predicate IsWritable()
      ensures !IsWritable() <==> registerType == DI || registerType == AI
    {
      registerType == DO || registerType == AO
    }

    method SetDataType(t: DataType)
      modifies this`dataType, this`size
      ensures dataType == t && size == SizeAfter(t, old(size))
    {
      size := SizeAfter(t, size);
      dataType := t;
    }

    method SetValue(v: Value)
      modifies this`value
      ensures value == v
    {
      value := v;
    }
  }
}
