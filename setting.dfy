// Settings of a bus device (miniserver_gateway/connectors/fb_bus/entities/setting.py).
// A device setting and a register setting share every field; a register
// setting also links to one register by address and type. The two source
// subclasses are one class here, told apart by `kind`.

module FbBusSetting {
  import opened Common
  import opened FbBusTypes
  import opened FbBusDevice
  import opened FbBusRegister

  /** The fields of a setting that pairing and reading change. */
  datatype SettingView = SettingView(name: Option<string>, dataType: DataType, size: nat, value: Value,
                                     registerAddress: Option<int>, registerType: Option<RegisterType>)

  class Setting {
    const id: Uuid
    const deviceId: Uuid
    const address: int
    const kind: SettingType
    var name: Option<string>
    var dataType: DataType
    var size: nat
    var value: Value
    var registerAddress: Option<int>
    var registerType: Option<RegisterType>

    function View(): SettingView
      reads this
    {
      SettingView(name, dataType, size, value, registerAddress, registerType)
    }

    /** `SettingEntity(...)`: no name, no value, data type UNKNOWN and size 0, no register link. */
    constructor (index: Uuid, deviceId: Uuid, address: int, kind: SettingType)
      ensures this.id == index && this.deviceId == deviceId && this.address == address && this.kind == kind
      ensures name.None? && value == VNull && dataType == Unknown && size == 0
      ensures registerAddress.None? && registerType.None?
    {
      this.id := index;
      this.deviceId := deviceId;
      this.address := address;
      this.kind := kind;
      this.name := None;
      this.dataType := Unknown;
      this.size := SizeAfter(Unknown, 0);
      this.value := VNull;
      this.registerAddress := None;
      this.registerType := None;
    }

    method SetName(n: string)
      modifies this`name
      ensures name == Some(n)
    {
      name := Some(n);
    }

    method SetDataType(t: DataType)
      modifies this`dataType, this`size
      ensures dataType == t && size == SizeAfter(t, old(size))
    {
      size := SizeAfter(t, size);
      dataType := t;
    }

    method SetValue(v: Value)
      modifies this`value
      ensures value == v
    {
      value := v;
    }

    /** `RegisterSettingEntity.set_register`. */
    method SetRegister(address: int, t: RegisterType)
      modifies this`registerAddress, this`registerType
      ensures registerAddress == Some(address) && registerType == Some(t)
    {
      registerAddress, registerType := Some(address), Some(t);
    }
  }
}
