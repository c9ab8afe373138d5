// The in-memory registry of the FastyBird bus connector
// (miniserver_gateway/connectors/fb_bus/fb_bus_connector.py): the devices,
// their registers and their two kinds of settings, the address allocation of
// `create_device` and the lookups every handler goes through.
//
// The source keeps four dicts keyed by the entity id; here each is a sequence
// of entity objects in insertion order whose ids are pairwise distinct. The
// entities are shared by reference, exactly as in the source: a handler that
// mutates a device it looked up mutates the device the registry holds.

module FbBusConnector {
  import opened Common
  import opened FbBusTypes
  import opened FbBusDevice
  import opened FbBusRegister
  import opened FbBusSetting
  import EntityKeyHash
  import GT = GatewayTypes

  /** `FbBusConnectorInterface.ADDRESS_NOT_ASSIGNED`: the address of a device not yet addressed. */
  const AddressNotAssigned: int := 255

  /** `__MAX_ADDRESS`: addresses 1..252 can be handed out. */
  const MaxAddress: int := 253

  /**
   * A call the connector makes into the gateway's connectors container,
   * which turns it into a queue item or a storage write; the connector only
   * notifies, so the model records the call.
   */
  datatype ContainerCall =
      /** `send_channel_property_to_storage(property_id, actual_value, previous_value)`. */
    | PropertyToStorage(propertyId: Uuid, actual: Value, previous: Value)
      /** `delete_channel_property(id)`. */
    | ChannelPropertyDeleted(propertyId: Uuid)
      /** `delete_device_configuration(id)`. */
    | DeviceConfigurationDeleted(configurationId: Uuid)
      /** `delete_channel_configuration(id)`. */
    | ChannelConfigurationDeleted(configurationId: Uuid)
      /** `add_or_edit_device` with the device's state, as `propagate_device_state` calls it. */
    | DeviceStatePropagated(deviceId: Uuid, state: GT.DeviceState)
      /** `add_or_edit_device` with the device's whole description, as `propagate_device` calls it. */
    | DevicePropagated(deviceId: Uuid, state: GT.DeviceState)

  // ---------------------------------------------------------------------------
  // The registry contents as values

  predicate DistinctDeviceIds(ds: seq<Device>)
  {
    forall i, j :: 0 <= i < j < |ds| ==> ds[i].id != ds[j].id
  }

  predicate DistinctRegisterIds(rs: seq<Register>)
  {
    forall i, j :: 0 <= i < j < |rs| ==> rs[i].id != rs[j].id
  }

  predicate DistinctSettingIds(ss: seq<Setting>)
  {
    forall i, j :: 0 <= i < j < |ss| ==> ss[i].id != ss[j].id
  }

  /** The dict lookup `__devices[str(id)]`. */
  function DeviceWithId(ds: seq<Device>, id: Uuid): (r: Option<Device>)
    ensures r.Some? ==> r.value in ds && r.value.id == id
    ensures r.None? <==> forall d :: d in ds ==> d.id != id
  {
    if ds == [] then None
    else if ds[0].id == id then Some(ds[0])
    else DeviceWithId(ds[1..], id)
  }

  /** The first device, in registry order, that has the given address. */
  function DeviceAt(ds: seq<Device>, address: int): (r: Option<Device>)
    reads ds
    ensures r.Some? ==> r.value in ds && r.value.address == address
    ensures r.None? <==> forall d :: d in ds ==> d.address != address
    ensures r.Some? ==> exists i :: 0 <= i < |ds| && ds[i] == r.value &&
                                   forall j :: 0 <= j < i ==> ds[j].address != address
  {
    if ds == [] then None
    else if ds[0].address == address then Some(ds[0])
    else
      var r := DeviceAt(ds[1..], address);
      assert r.Some? ==> exists i :: 0 <= i < |ds[1..]| && ds[1..][i] == r.value &&
                                     forall j :: 0 <= j < i ==> ds[1..][j].address != address;
      assert r.Some? ==> exists i :: 0 < i < |ds| && ds[i] == r.value &&
                                     forall j :: 0 <= j < i ==> ds[j].address != address by {
        if r.Some? {
          var i :| 0 <= i < |ds[1..]| && ds[1..][i] == r.value &&
                   forall j :: 0 <= j < i ==> ds[1..][j].address != address;
          assert ds[i + 1] == r.value;
          assert forall j :: 0 < j < i + 1 ==> ds[j] == ds[1..][j - 1];
        }
      }
      r
  }

  /** The first device, in registry order, that has the given serial number. */
  function DeviceWithSerial(ds: seq<Device>, serial: string): (r: Option<Device>)
    ensures r.Some? ==> r.value in ds && r.value.serialNumber == serial
    ensures r.None? <==> forall d :: d in ds ==> d.serialNumber != serial
  {
    if ds == [] then None
    else if ds[0].serialNumber == serial then Some(ds[0])
    else DeviceWithSerial(ds[1..], serial)
  }

  /** The registers of one device and one type, in registry order. */
  function RegistersOf(rs: seq<Register>, deviceId: Uuid, t: RegisterType): seq<Register>
  {
    if rs == [] then []
    else if rs[0].deviceId == deviceId && rs[0].registerType == t then [rs[0]] + RegistersOf(rs[1..], deviceId, t)
    else RegistersOf(rs[1..], deviceId, t)
  }

  /** The first register of a device with the given type and address. */
  function RegisterAt(rs: seq<Register>, deviceId: Uuid, t: RegisterType, address: int): (r: Option<Register>)
    ensures r.Some? ==> r.value in rs && r.value.deviceId == deviceId && r.value.registerType == t &&
                        r.value.address == address
    ensures r.None? <==> forall x :: x in rs ==> !(x.deviceId == deviceId && x.registerType == t && x.address == address)
  {
    if rs == [] then None
    else if rs[0].deviceId == deviceId && rs[0].address == address && rs[0].registerType == t then Some(rs[0])
    else RegisterAt(rs[1..], deviceId, t, address)
  }

  /** The settings of one device, in registry order. */
  function SettingsOf(ss: seq<Setting>, deviceId: Uuid): seq<Setting>
  {
    if ss == [] then []
    else if ss[0].deviceId == deviceId then [ss[0]] + SettingsOf(ss[1..], deviceId)
    else SettingsOf(ss[1..], deviceId)
  }

  /** The first setting of a device with the given address. */
  function SettingAt(ss: seq<Setting>, deviceId: Uuid, address: int): (r: Option<Setting>)
    ensures r.Some? ==> r.value in ss && r.value.deviceId == deviceId && r.value.address == address
    ensures r.None? <==> forall x :: x in ss ==> !(x.deviceId == deviceId && x.address == address)
  {
    if ss == [] then None
    else if ss[0].deviceId == deviceId && ss[0].address == address then Some(ss[0])
    else SettingAt(ss[1..], deviceId, address)
  }

  /** `dict[str(id)] = entity` when the id is already a key: the entry with that id now holds `d`. */
  function ReplaceDevice(ds: seq<Device>, d: Device): (r: seq<Device>)
    ensures |r| == |ds|
    ensures forall i :: 0 <= i < |ds| ==> r[i].id == ds[i].id
    ensures forall i :: 0 <= i < |ds| ==> r[i] == (if ds[i].id == d.id then d else ds[i])
  {
    seq(|ds|, i requires 0 <= i < |ds| => if ds[i].id == d.id then d else ds[i])
  }

  function ReplaceRegister(rs: seq<Register>, x: Register): (r: seq<Register>)
    ensures |r| == |rs|
    ensures forall i :: 0 <= i < |rs| ==> r[i].id == rs[i].id
    ensures forall i :: 0 <= i < |rs| ==> r[i] == (if rs[i].id == x.id then x else rs[i])
  {
    seq(|rs|, i requires 0 <= i < |rs| => if rs[i].id == x.id then x else rs[i])
  }

  function ReplaceSetting(ss: seq<Setting>, x: Setting): (r: seq<Setting>)
    ensures |r| == |ss|
    ensures forall i :: 0 <= i < |ss| ==> r[i].id == ss[i].id
    ensures forall i :: 0 <= i < |ss| ==> r[i] == (if ss[i].id == x.id then x else ss[i])
  {
    seq(|ss|, i requires 0 <= i < |ss| => if ss[i].id == x.id then x else ss[i])
  }

  /** `del dict[str(id)]`: every entry but the one with that id, in order. */
  function WithoutRegister(rs: seq<Register>, id: Uuid): (r: seq<Register>)
    ensures forall x :: x in r ==> x in rs && x.id != id
    ensures forall x :: x in rs && x.id != id ==> x in r
    ensures |r| <= |rs|
  {
    if rs == [] then []
    else if rs[0].id == id then WithoutRegister(rs[1..], id)
    else [rs[0]] + WithoutRegister(rs[1..], id)
  }

  function WithoutSetting(ss: seq<Setting>, id: Uuid): (r: seq<Setting>)
    ensures forall x :: x in r ==> x in ss && x.id != id
    ensures forall x :: x in ss && x.id != id ==> x in r
    ensures |r| <= |ss|
  {
    if ss == [] then []
    else if ss[0].id == id then WithoutSetting(ss[1..], id)
    else [ss[0]] + WithoutSetting(ss[1..], id)
  }

  /** Some device in the registry holds the address. */
  ghost predicate AddressTaken(ds: seq<Device>, address: int)
    reads ds
  {
    exists d :: d in ds && d.address == address
  }

  /** Every address a new device could take, 1 up to 252, is held by some device. */
  ghost predicate AllAddressesTaken(ds: seq<Device>)
    reads ds
  {
    forall a :: 1 <= a < MaxAddress ==> AddressTaken(ds, a)
  }

  // ---------------------------------------------------------------------------
  // Properties of the registry functions

  /** `get_registers_by_type` returns exactly the registers of that device and type, each once at most as often as stored. */
  lemma {:induction false} RegistersOfMembers(rs: seq<Register>, deviceId: Uuid, t: RegisterType)
    ensures forall x :: x in RegistersOf(rs, deviceId, t) ==> x in rs && x.deviceId == deviceId && x.registerType == t
    ensures forall x :: x in rs && x.deviceId == deviceId && x.registerType == t ==> x in RegistersOf(rs, deviceId, t)
    ensures |RegistersOf(rs, deviceId, t)| <= |rs|
  {
    if rs != [] {
      RegistersOfMembers(rs[1..], deviceId, t);
      assert forall x :: x in rs ==> x == rs[0] || x in rs[1..];
    }
  }

  /** `get_settings_by_type` returns exactly the settings of that device in the registry searched. */
  lemma {:induction false} SettingsOfMembers(ss: seq<Setting>, deviceId: Uuid)
    ensures forall x :: x in SettingsOf(ss, deviceId) ==> x in ss && x.deviceId == deviceId
    ensures forall x :: x in ss && x.deviceId == deviceId ==> x in SettingsOf(ss, deviceId)
    ensures |SettingsOf(ss, deviceId)| <= |ss|
  {
    if ss != [] {
      SettingsOfMembers(ss[1..], deviceId);
      assert forall x :: x in ss ==> x == ss[0] || x in ss[1..];
    }
  }

  /** Replacing never inserts: with no entry of that id the registry is unchanged, and ids stay distinct. */
  lemma ReplaceNeverInserts(ds: seq<Device>, d: Device)
    ensures (forall e :: e in ds ==> e.id != d.id) ==> ReplaceDevice(ds, d) == ds
    ensures DistinctDeviceIds(ds) ==> DistinctDeviceIds(ReplaceDevice(ds, d))
    ensures d in ReplaceDevice(ds, d) <==> d in ds || exists e :: e in ds && e.id == d.id
  {
    var r := ReplaceDevice(ds, d);
    if d in r && d !in ds {
      var i :| 0 <= i < |r| && r[i] == d;
      assert ds[i].id == d.id;
    }
    if exists e :: e in ds && e.id == d.id {
      var e :| e in ds && e.id == d.id;
      var i :| 0 <= i < |ds| && ds[i] == e;
      assert r[i] == d;
    }
  }

  /** Deleting keeps ids distinct and removes the only entry of that id, if any. */
  /** Setting the entry of a register the registry already holds leaves the registry as it was. */
  lemma ReplacePresentRegister(rs: seq<Register>, x: Register)
    requires DistinctRegisterIds(rs) && x in rs
    ensures ReplaceRegister(rs, x) == rs
  {
    forall i | 0 <= i < |rs| && rs[i].id == x.id
      ensures rs[i] == x
    {
      var j :| 0 <= j < |rs| && rs[j] == x;
      assert i == j;
    }
  }

  lemma {:induction false} WithoutRegisterDistinct(rs: seq<Register>, id: Uuid)
    requires DistinctRegisterIds(rs)
    ensures DistinctRegisterIds(WithoutRegister(rs, id))
    ensures (forall x :: x in rs ==> x.id != id) ==> WithoutRegister(rs, id) == rs
  {
    if forall x :: x in rs ==> x.id != id {
      WithoutRegisterAbsent(rs, id);
    }
    if rs != [] {
      var rest := rs[1..];
      DistinctRegisterTail(rs);
      WithoutRegisterDistinct(rest, id);
      var tail := WithoutRegister(rest, id);
      if rs[0].id == id {
        assert WithoutRegister(rs, id) == tail;
      } else {
        assert WithoutRegister(rs, id) == [rs[0]] + tail;
        forall j | 0 <= j < |tail|
          ensures tail[j].id != rs[0].id
        {
          assert tail[j] in rest;
        }
        DistinctRegisterCons(rs[0], tail);
      }
    }
  }

  /** A register whose id no other has, in front of distinct registers, keeps them distinct. */
  lemma DistinctRegisterCons(x: Register, t: seq<Register>)
    requires DistinctRegisterIds(t)
    requires forall j :: 0 <= j < |t| ==> t[j].id != x.id
    ensures DistinctRegisterIds([x] + t)
  {
    var r := [x] + t;
    forall i, j | 0 <= i < j < |r|
      ensures r[i].id != r[j].id
    {
      assert r[j] == t[j - 1];
      if i > 0 {
        assert r[i] == t[i - 1];
      }
    }
  }

  /** Deleting an id no register has changes nothing. */
  lemma {:induction false} WithoutRegisterAbsent(rs: seq<Register>, id: Uuid)
    requires forall x :: x in rs ==> x.id != id
    ensures WithoutRegister(rs, id) == rs
  {
    if rs != [] {
      var rest := rs[1..];
      assert forall x :: x in rest ==> x in rs;
      WithoutRegisterAbsent(rest, id);
      assert [rs[0]] + rest == rs;
    }
  }

  /** Without its first entry, distinct registers stay distinct, and none of the rest has the first one's id. */
  lemma DistinctRegisterTail(rs: seq<Register>)
    requires DistinctRegisterIds(rs) && rs != []
    ensures DistinctRegisterIds(rs[1..])
    ensures forall y :: y in rs[1..] ==> y.id != rs[0].id
  {
    var rest := rs[1..];
    forall i, j | 0 <= i < j < |rest|
      ensures rest[i].id != rest[j].id
    {
      assert rest[i] == rs[i + 1] && rest[j] == rs[j + 1];
    }
    forall y | y in rest
      ensures y.id != rs[0].id
    {
      var k :| 0 <= k < |rest| && rest[k] == y;
      assert rs[k + 1] == y;
    }
  }

  /** A setting whose id no other has, in front of distinct settings, keeps them distinct. */
  lemma DistinctSettingCons(x: Setting, t: seq<Setting>)
    requires DistinctSettingIds(t)
    requires forall j :: 0 <= j < |t| ==> t[j].id != x.id
    ensures DistinctSettingIds([x] + t)
  {
    var r := [x] + t;
    forall i, j | 0 <= i < j < |r|
      ensures r[i].id != r[j].id
    {
      assert r[j] == t[j - 1];
      if i > 0 {
        assert r[i] == t[i - 1];
      }
    }
  }

  /** Deleting an id no setting has changes nothing. */
  lemma {:induction false} WithoutSettingAbsent(ss: seq<Setting>, id: Uuid)
    requires forall x :: x in ss ==> x.id != id
    ensures WithoutSetting(ss, id) == ss
  {
    if ss != [] {
      var rest := ss[1..];
      assert forall x :: x in rest ==> x in ss;
      WithoutSettingAbsent(rest, id);
      assert [ss[0]] + rest == ss;
    }
  }

  /** Without its first entry, distinct settings stay distinct, and none of the rest has the first one's id. */
  lemma DistinctSettingTail(ss: seq<Setting>)
    requires DistinctSettingIds(ss) && ss != []
    ensures DistinctSettingIds(ss[1..])
    ensures forall y :: y in ss[1..] ==> y.id != ss[0].id
  {
    var rest := ss[1..];
    forall i, j | 0 <= i < j < |rest|
      ensures rest[i].id != rest[j].id
    {
      assert rest[i] == ss[i + 1] && rest[j] == ss[j + 1];
    }
    forall y | y in rest
      ensures y.id != ss[0].id
    {
      var k :| 0 <= k < |rest| && rest[k] == y;
      assert ss[k + 1] == y;
    }
  }

  lemma {:induction false} WithoutSettingDistinct(ss: seq<Setting>, id: Uuid)
    requires DistinctSettingIds(ss)
    ensures DistinctSettingIds(WithoutSetting(ss, id))
    ensures (forall x :: x in ss ==> x.id != id) ==> WithoutSetting(ss, id) == ss
  {
    if forall x :: x in ss ==> x.id != id {
      WithoutSettingAbsent(ss, id);
    }
    if ss != [] {
      var rest := ss[1..];
      DistinctSettingTail(ss);
      WithoutSettingDistinct(rest, id);
      var tail := WithoutSetting(rest, id);
      if ss[0].id == id {
        assert WithoutSetting(ss, id) == tail;
      } else {
        assert WithoutSetting(ss, id) == [ss[0]] + tail;
        forall j | 0 <= j < |tail|
          ensures tail[j].id != ss[0].id
        {
          assert tail[j] in rest;
        }
        DistinctSettingCons(ss[0], tail);
      }
    }
  }

  /** With distinct ids the registers of a device and type have one address each only if the registry says so. */
  lemma RegisterAtIsInRegistersOf(rs: seq<Register>, deviceId: Uuid, t: RegisterType, address: int)
    ensures RegisterAt(rs, deviceId, t, address).Some? ==> RegisterAt(rs, deviceId, t, address).value in RegistersOf(rs, deviceId, t)
    ensures RegisterAt(rs, deviceId, t, address).None? <==>
            forall x :: x in RegistersOf(rs, deviceId, t) ==> x.address != address
  {
    RegistersOfMembers(rs, deviceId, t);
  }

  lemma RegistersOfStep(rs: seq<Register>, i: nat, deviceId: Uuid, t: RegisterType)
    requires i < |rs|
    ensures RegistersOf(rs[i..], deviceId, t) ==
            (if rs[i].deviceId == deviceId && rs[i].registerType == t then [rs[i]] else []) + RegistersOf(rs[i + 1..], deviceId, t)
  {
    assert rs[i..][1..] == rs[i + 1..];
  }

  /** One more register of the registry looked at by `get_registers_by_type`. */
  lemma RegistersOfNext(rs: seq<Register>, i: int, r: seq<Register>, deviceId: Uuid, t: RegisterType)
    requires 0 <= i < |rs| && r + RegistersOf(rs[i..], deviceId, t) == RegistersOf(rs, deviceId, t)
    ensures (if rs[i].deviceId == deviceId && rs[i].registerType == t then r + [rs[i]] else r) +
            RegistersOf(rs[i + 1..], deviceId, t) == RegistersOf(rs, deviceId, t)
  {
    RegistersOfStep(rs, i, deviceId, t);
    var tail := RegistersOf(rs[i + 1..], deviceId, t);
    if rs[i].deviceId == deviceId && rs[i].registerType == t {
      assert (r + [rs[i]]) + tail == r + ([rs[i]] + tail);
    } else {
      assert [] + tail == tail;
    }
  }

  class Connector {
    var devices: seq<Device>
    var registers: seq<Register>
    var deviceSettings: seq<Setting>
    var registerSettings: seq<Setting>
    /** The calls made into the connectors container, oldest first. */
    var containerCalls: seq<ContainerCall>

    /**
     * Each registry has distinct ids (they are its dict keys), and each
     * settings registry holds only its own kind of setting.
     */
    ghost predicate Valid()
      reads this
    {
      DistinctDeviceIds(devices) && DistinctRegisterIds(registers) &&
      DistinctSettingIds(deviceSettings) && DistinctSettingIds(registerSettings) &&
      (forall s :: s in deviceSettings ==> s.kind == DeviceSetting) &&
      (forall s :: s in registerSettings ==> s.kind == RegisterSetting)
    }

    /** The registries start empty. */
    constructor ()
      ensures Valid()
      ensures devices == [] && registers == [] && deviceSettings == [] && registerSettings == []
      ensures containerCalls == []
    {
      devices, registers, deviceSettings, registerSettings := [], [], [], [];
      containerCalls := [];
    }

    /** `get_device_by_id`. */
    function GetDeviceById(id: Uuid): (r: Option<Device>)
      reads this
      ensures r.Some? ==> r.value in devices && r.value.id == id
      ensures r.None? <==> forall d :: d in devices ==> d.id != id
    {
      DeviceWithId(devices, id)
    }

    /** `get_device_by_address`: a scan in registry order. */
    method GetDeviceByAddress(address: int) returns (r: Option<Device>)
      ensures r == DeviceAt(devices, address)
    {
      var i := 0;
      while i < |devices|
        invariant 0 <= i <= |devices|
        invariant DeviceAt(devices[i..], address) == DeviceAt(devices, address)
      {
        if devices[i].address == address {
          return Some(devices[i]);
        }
        assert devices[i..][1..] == devices[i + 1..];
        i := i + 1;
      }
      return None;
    }

    /** `get_device_by_serial_number`: a scan in registry order. */
    method GetDeviceBySerialNumber(serial: string) returns (r: Option<Device>)
      ensures r == DeviceWithSerial(devices, serial)
    {
      var i := 0;
      while i < |devices|
        invariant 0 <= i <= |devices|
        invariant DeviceWithSerial(devices[i..], serial) == DeviceWithSerial(devices, serial)
      {
        if devices[i].serialNumber == serial {
          return Some(devices[i]);
        }
        assert devices[i..][1..] == devices[i + 1..];
        i := i + 1;
      }
      return None;
    }

    /**
     * `create_device`: collect the reserved addresses, take the lowest of
     * 1..252 that is free, and store a new device there in CONNECTED state.
     * None is the InvalidStateException raised when all are taken.
     * `newId` is the fresh `uuid.uuid4()`.
     */
    method CreateDevice(serial: string, maxPacketLength: int, newId: Uuid) returns (r: Option<Device>)
      requires Valid()
      requires forall d :: d in devices ==> d.id != newId
      modifies this
      ensures Valid()
      ensures registers == old(registers) && deviceSettings == old(deviceSettings) &&
              registerSettings == old(registerSettings) && containerCalls == old(containerCalls)
      ensures r.None? <==> old(AllAddressesTaken(devices))
      ensures r.None? ==> devices == old(devices)
      ensures r.Some? ==> fresh(r.value) && devices == old(devices) + [r.value] && r.value.id == newId
      ensures r.Some? ==> r.value.View() == InitialView(r.value.address, serial, maxPacketLength, false, false, false)
                                              .(state := GT.Connected)
      ensures r.Some? ==> 1 <= r.value.address < MaxAddress
      ensures r.Some? ==> var address := r.value.address;
                          old(!AddressTaken(devices, address) && forall a :: 1 <= a < address ==> AddressTaken(devices, a))
    {
      var reserved: seq<int> := [];
      var k := 0;
      while k < |devices|
        invariant 0 <= k <= |devices|
        invariant |reserved| == k
        invariant forall j :: 0 <= j < k ==> reserved[j] == devices[j].address
      {
        reserved := reserved + [devices[k].address];
        k := k + 1;
      }
      assert forall a :: a in reserved <==> AddressTaken(devices, a) by {
        forall a
          ensures a in reserved <==> AddressTaken(devices, a)
        {
          if a in reserved {
            var j :| 0 <= j < |reserved| && reserved[j] == a;
            assert devices[j] in devices;
          }
          if AddressTaken(devices, a) {
            var d :| d in devices && d.address == a;
            var j :| 0 <= j < |devices| && devices[j] == d;
            assert reserved[j] == a;
          }
        }
      }

      var free: Option<int> := None;
      var i := 1;
      while i < MaxAddress
        invariant 1 <= i <= MaxAddress
        invariant forall a :: 1 <= a < i ==> a in reserved
      {
        if i !in reserved {
          free := Some(i);
          break;
        }
        i := i + 1;
      }
      if free.None? {
        return None;
      }

      assert !AddressTaken(devices, free.value);
      var d := new Device(newId, free.value, serial, maxPacketLength, false, false, false);
      WithStateEffects(d.View(), GT.Connected, 0);
      d.SetState(GT.Connected, 0);
      devices := devices + [d];
      return Some(d);
    }

    /** `update_device`: replaces the entry with the same id; never inserts. */
    method UpdateDevice(d: Device)
      requires Valid()
      modifies this
      ensures Valid()
      ensures devices == ReplaceDevice(old(devices), d)
      ensures registers == old(registers) && deviceSettings == old(deviceSettings) &&
              registerSettings == old(registerSettings) && containerCalls == old(containerCalls)
    {
      ReplaceNeverInserts(devices, d);
      devices := ReplaceDevice(devices, d);
    }

    /** `get_registers_by_type`: the registers of the device with that type, in registry order. */
    method GetRegistersByType(device: Device, t: RegisterType) returns (r: seq<Register>)
      ensures r == RegistersOf(registers, device.id, t)
    {
      var rs := registers;
      r := [];
      var i := 0;
      while i < |rs|
        invariant 0 <= i <= |rs|
        invariant r + RegistersOf(rs[i..], device.id, t) == RegistersOf(rs, device.id, t)
      {
        RegistersOfNext(rs, i, r, device.id, t);
        if rs[i].deviceId == device.id && rs[i].registerType == t {
          r := r + [rs[i]];
        }
        i := i + 1;
      }
      assert rs[i..] == [];
      assert r + [] == r;
    }

    /** `get_register_by_address`: the first register of the device with that type and address. */
    method GetRegisterByAddress(device: Device, t: RegisterType, address: int) returns (r: Option<Register>)
      ensures r == RegisterAt(registers, device.id, t, address)
    {
      var i := 0;
      while i < |registers|
        invariant 0 <= i <= |registers|
        invariant RegisterAt(registers[i..], device.id, t, address) == RegisterAt(registers, device.id, t, address)
      {
        if registers[i].deviceId == device.id && registers[i].address == address && registers[i].registerType == t {
          return Some(registers[i]);
        }
        assert registers[i..][1..] == registers[i + 1..];
        i := i + 1;
      }
      return None;
    }

    /**
     * `create_register`: a new register with fresh ids and the entity key
     * of the current time in microseconds.
     */
    method CreateRegister(device: Device, address: int, t: RegisterType, dataType: DataType,
                          newId: Uuid, channelId: Uuid, timeMicros: nat) returns (r: Register)
      requires Valid()
      requires forall x :: x in registers ==> x.id != newId
      modifies this
      ensures Valid()
      ensures fresh(r) && registers == old(registers) + [r]
      ensures r.id == newId && r.channelId == channelId && r.deviceId == device.id && r.address == address
      ensures r.registerType == t && r.dataType == dataType && r.size == SizeAfter(dataType, 0) && r.value == VNull
      ensures r.key == EntityKeyHash.EncodedKey(timeMicros)
      ensures devices == old(devices) && deviceSettings == old(deviceSettings) &&
              registerSettings == old(registerSettings) && containerCalls == old(containerCalls)
    {
      EntityKeyHash.PowPositive(5);
      var key := EntityKeyHash.Encode(timeMicros);
      r := new Register(newId, key.value, channelId, device.id, address, t, dataType);
      registers := registers + [r];
    }

    /** `update_register`: replaces the entry with the same id; never inserts. */
    method UpdateRegister(x: Register)
      requires Valid()
      modifies this
      ensures Valid()
      ensures registers == ReplaceRegister(old(registers), x)
      ensures devices == old(devices) && deviceSettings == old(deviceSettings) &&
              registerSettings == old(registerSettings) && containerCalls == old(containerCalls)
    {
      registers := ReplaceRegister(registers, x);
    }

    /**
     * `delete_register`: removes the entry with that id, if there is one,
     * and tells the container the channel property is gone, whether or not
     * it was there.
     */
    method DeleteRegister(x: Register)
      requires Valid()
      modifies this
      ensures Valid()
      ensures registers == WithoutRegister(old(registers), x.id)
      ensures containerCalls == old(containerCalls) + [ChannelPropertyDeleted(x.id)]
      ensures devices == old(devices) && deviceSettings == old(deviceSettings) &&
              registerSettings == old(registerSettings)
    {
      WithoutRegisterDistinct(registers, x.id);
      registers := WithoutRegister(registers, x.id);
      containerCalls := containerCalls + [ChannelPropertyDeleted(x.id)];
    }

    /**
     * `update_register_value`: the register takes the value; when its id is
     * in the registry the entry is set to it and the value is forwarded to
     * the storage together with the value the register held before.
     * `stored` says whether that happened.
     */
    method UpdateRegisterValue(x: Register, v: Value) returns (stored: bool)
      requires Valid()
      modifies this, x`value
      ensures Valid()
      ensures x.value == v
      ensures stored <==> exists y :: y in old(registers) && y.id == x.id
      ensures registers == ReplaceRegister(old(registers), x)
      ensures x in old(registers) ==> registers == old(registers)
      ensures containerCalls == old(containerCalls) + if stored then [PropertyToStorage(x.id, v, old(x.value))] else []
      ensures devices == old(devices) && deviceSettings == old(deviceSettings) &&
              registerSettings == old(registerSettings)
    {
      var previous := x.value;
      x.SetValue(v);
      stored := exists y :: y in registers && y.id == x.id;
      if x in registers {
        ReplacePresentRegister(registers, x);
      }
      registers := ReplaceRegister(registers, x);
      if stored {
        containerCalls := containerCalls + [PropertyToStorage(x.id, v, previous)];
      }
    }

    /** `propagate_device_state`: tells the container the device's state. */
    method PropagateDeviceState(d: Device)
      modifies this
      ensures containerCalls == old(containerCalls) + [DeviceStatePropagated(d.id, d.state)]
      ensures devices == old(devices) && registers == old(registers) && deviceSettings == old(deviceSettings) &&
              registerSettings == old(registerSettings)
    {
      containerCalls := containerCalls + [DeviceStatePropagated(d.id, d.state)];
    }

    /** `propagate_device`: tells the container the device, with its state and description. */
    method PropagateDevice(d: Device)
      modifies this
      ensures containerCalls == old(containerCalls) + [DevicePropagated(d.id, d.state)]
      ensures devices == old(devices) && registers == old(registers) && deviceSettings == old(deviceSettings) &&
              registerSettings == old(registerSettings)
    {
      containerCalls := containerCalls + [DevicePropagated(d.id, d.state)];
    }

    /** The settings registry of a kind. */
    function SettingsRegistry(kind: SettingType): seq<Setting>
      reads this
    {
      if kind == DeviceSetting then deviceSettings else registerSettings
    }

    /** `get_settings_by_type`: the settings of the device in the registry of that kind. */
    method GetSettingsByType(device: Device, kind: SettingType) returns (r: seq<Setting>)
      ensures r == SettingsOf(SettingsRegistry(kind), device.id)
    {
      var ss := if kind == DeviceSetting then deviceSettings else registerSettings;
      r := [];
      var i := 0;
      while i < |ss|
        invariant 0 <= i <= |ss|
        invariant r + SettingsOf(ss[i..], device.id) == SettingsOf(ss, device.id)
      {
        assert ss[i..][1..] == ss[i + 1..];
        if ss[i].deviceId == device.id {
          r := r + [ss[i]];
        }
        i := i + 1;
      }
    }

    /** `get_setting_by_address`: the first setting of the device with that address in the registry of that kind. */
    method GetSettingByAddress(device: Device, kind: SettingType, address: int) returns (r: Option<Setting>)
      ensures r == SettingAt(SettingsRegistry(kind), device.id, address)
    {
      var ss := if kind == DeviceSetting then deviceSettings else registerSettings;
      var i := 0;
      while i < |ss|
        invariant 0 <= i <= |ss|
        invariant SettingAt(ss[i..], device.id, address) == SettingAt(ss, device.id, address)
      {
        if ss[i].deviceId == device.id && ss[i].address == address {
          return Some(ss[i]);
        }
        assert ss[i..][1..] == ss[i + 1..];
        i := i + 1;
      }
      return None;
    }

    /** `create_setting`: a new setting of that kind for the device, in the registry of its kind. */
    method CreateSetting(device: Device, address: int, kind: SettingType, newId: Uuid) returns (r: Setting)
      requires Valid()
      requires forall x :: x in SettingsRegistry(kind) ==> x.id != newId
      modifies this
      ensures Valid()
      ensures fresh(r) && r.id == newId && r.deviceId == device.id && r.address == address && r.kind == kind
      ensures r.name.None? && r.dataType == Unknown && r.size == 0 && r.value == VNull && r.registerAddress.None?
      ensures SettingsRegistry(kind) == old(SettingsRegistry(kind)) + [r]
      ensures kind == DeviceSetting ==> registerSettings == old(registerSettings)
      ensures kind == RegisterSetting ==> deviceSettings == old(deviceSettings)
      ensures devices == old(devices) && registers == old(registers) && containerCalls == old(containerCalls)
    {
      r := new Setting(newId, device.id, address, kind);
      if kind == DeviceSetting {
        deviceSettings := deviceSettings + [r];
      } else {
        registerSettings := registerSettings + [r];
      }
    }

    /** `update_setting`: replaces the entry with the same id in the registry of the setting's kind. */
    method UpdateSetting(x: Setting)
      requires Valid()
      modifies this
      ensures Valid()
      ensures SettingsRegistry(x.kind) == ReplaceSetting(old(SettingsRegistry(x.kind)), x)
      ensures x.kind == DeviceSetting ==> registerSettings == old(registerSettings)
      ensures x.kind == RegisterSetting ==> deviceSettings == old(deviceSettings)
      ensures devices == old(devices) && registers == old(registers) && containerCalls == old(containerCalls)
    {
      if x.kind == DeviceSetting {
        deviceSettings := ReplaceSetting(deviceSettings, x);
      } else {
        registerSettings := ReplaceSetting(registerSettings, x);
      }
    }

    /**
     * `delete_setting`: removes the entry with that id from the registry of
     * the setting's kind and, only when there was one, tells the container
     * the device or channel configuration is gone.
     */
    method DeleteSetting(x: Setting)
      requires Valid()
      modifies this
      ensures Valid()
      ensures SettingsRegistry(x.kind) == WithoutSetting(old(SettingsRegistry(x.kind)), x.id)
      ensures x.kind == DeviceSetting ==> registerSettings == old(registerSettings)
      ensures x.kind == RegisterSetting ==> deviceSettings == old(deviceSettings)
      ensures devices == old(devices) && registers == old(registers)
      ensures containerCalls == old(containerCalls) +
                if forall y :: y in old(SettingsRegistry(x.kind)) ==> y.id != x.id then []
                else if x.kind == DeviceSetting then [DeviceConfigurationDeleted(x.id)]
                else [ChannelConfigurationDeleted(x.id)]
    {
      var present := exists y :: y in SettingsRegistry(x.kind) && y.id == x.id;
      if x.kind == DeviceSetting {
        WithoutSettingDistinct(deviceSettings, x.id);
        deviceSettings := WithoutSetting(deviceSettings, x.id);
        if present {
          containerCalls := containerCalls + [DeviceConfigurationDeleted(x.id)];
        }
      } else {
        WithoutSettingDistinct(registerSettings, x.id);
        registerSettings := WithoutSetting(registerSettings, x.id);
        if present {
          containerCalls := containerCalls + [ChannelConfigurationDeleted(x.id)];
        }
      }
    }
  }

  /**
   * The registries keep their entities and the connector its invariant;
   * the receivers change only values, devices and the recorded calls.
   */
  twostate predicate RegistriesKept(conn: Connector)
    reads conn
  {
    conn.Valid() && conn.registers == old(conn.registers) && conn.devices == old(conn.devices) &&
    conn.deviceSettings == old(conn.deviceSettings) && conn.registerSettings == old(conn.registerSettings)
  }
}
