// Shaping the registries to the sizes a device reports during pairing
// (`__configure_registers` and `__configure_settings` in
// miniserver_gateway/connectors/fb_bus/utilities/pairing_helper.py).
//
// A device reports how many registers of each type and how many settings of
// each kind it has. The registries then hold one entry per address from 0
// up to that count: missing entries are created, existing registers get the
// data type their type starts with, and entries past the count are deleted.

module FbBusPairingConfigure {
  import opened Common
  import opened FbBusTypes
  import opened FbBusDevice
  import opened FbBusRegister
  import opened FbBusSetting
  import opened FbBusConnector

  /** The data type a configured register starts with: BOOL for digital ones, UNKNOWN for analog ones. */
  function ConfiguredDataType(t: RegisterType): DataType
  {
    if t == DI || t == DO then Bool else Unknown
  }

  predicate OfType(x: Register, deviceId: Uuid, t: RegisterType)
  {
    x.deviceId == deviceId && x.registerType == t
  }

  /** No two registers of the device and type share an address. */
  predicate UniqueAddresses(rs: seq<Register>, deviceId: Uuid, t: RegisterType)
  {
    forall a, b :: 0 <= a < b < |rs| && OfType(rs[a], deviceId, t) && OfType(rs[b], deviceId, t) ==>
      rs[a].address != rs[b].address
  }

  /**
   * The registers of the device and type are numbered as pairing numbers
   * them: distinct addresses, all below their count.
   */
  predicate Contiguous(rs: seq<Register>, deviceId: Uuid, t: RegisterType)
  {
    UniqueAddresses(rs, deviceId, t) &&
    forall x :: x in rs && OfType(x, deviceId, t) ==> 0 <= x.address < |RegistersOf(rs, deviceId, t)|
  }

  /** The byte size a configured register ends up with: that of BOOL or of UNKNOWN. */
  function ConfiguredSize(t: RegisterType): (size: nat)
    ensures forall previous :: SizeAfter(ConfiguredDataType(t), previous) == size
  {
    if t == DI || t == DO then 1 else 0
  }

  /** Some register of the device and type sits at address `i` with the data type and size pairing gives it. */
  ghost predicate ConfiguredAt(rs: seq<Register>, deviceId: Uuid, t: RegisterType, i: int)
    reads rs
  {
    exists x :: x in rs && OfType(x, deviceId, t) && x.address == i &&
                x.dataType == ConfiguredDataType(t) && x.size == ConfiguredSize(t)
  }

  // ---------------------------------------------------------------------------
  // Registry lemmas

  lemma {:induction false} RegisterAtAppend(a: seq<Register>, b: seq<Register>, deviceId: Uuid, t: RegisterType, i: int)
    ensures RegisterAt(a + b, deviceId, t, i) ==
            if RegisterAt(a, deviceId, t, i).Some? then RegisterAt(a, deviceId, t, i) else RegisterAt(b, deviceId, t, i)
  {
    if a == [] {
      assert a + b == b;
    } else {
      assert (a + b)[1..] == a[1..] + b;
      RegisterAtAppend(a[1..], b, deviceId, t, i);
    }
  }

  lemma {:induction false} RegistersOfAppend(a: seq<Register>, b: seq<Register>, deviceId: Uuid, t: RegisterType)
    ensures RegistersOf(a + b, deviceId, t) == RegistersOf(a, deviceId, t) + RegistersOf(b, deviceId, t)
  {
    if a == [] {
      assert a + b == b;
    } else {
      assert (a + b)[1..] == a[1..] + b;
      RegistersOfAppend(a[1..], b, deviceId, t);
    }
  }

  lemma {:induction false} RegistersOfAll(s: seq<Register>, deviceId: Uuid, t: RegisterType)
    requires forall x :: x in s ==> OfType(x, deviceId, t)
    ensures RegistersOf(s, deviceId, t) == s
  {
    if s != [] {
      assert forall x :: x in s[1..] ==> x in s;
      assert OfType(s[0], deviceId, t);
      RegistersOfAll(s[1..], deviceId, t);
      assert [s[0]] + s[1..] == s;
    }
  }

  /** With unique addresses, the lookup at a register's address finds that register. */
  lemma UniqueFirst(rs: seq<Register>, deviceId: Uuid, t: RegisterType, x: Register)
    requires UniqueAddresses(rs, deviceId, t)
    requires x in rs && OfType(x, deviceId, t)
    ensures RegisterAt(rs, deviceId, t, x.address) == Some(x)
  {
    var y := RegisterAt(rs, deviceId, t, x.address).value;
    var a :| 0 <= a < |rs| && rs[a] == x;
    var b :| 0 <= b < |rs| && rs[b] == y;
    if a != b {
      assert false;
    }
  }

  /** Appending a register at an address no register of its kind holds keeps the addresses unique. */
  lemma AppendUnique(rs: seq<Register>, x: Register, deviceId: Uuid, t: RegisterType)
    requires UniqueAddresses(rs, deviceId, t)
    requires RegisterAt(rs, deviceId, t, x.address).None?
    ensures UniqueAddresses(rs + [x], deviceId, t)
  {
    var s := rs + [x];
    forall a, b | 0 <= a < b < |s| && OfType(s[a], deviceId, t) && OfType(s[b], deviceId, t)
      ensures s[a].address != s[b].address
    {
      if b == |rs| {
        assert s[a] in rs;
      }
    }
  }

  /** Removing registers keeps the addresses unique. */
  lemma SubsetUnique(rs: seq<Register>, sub: seq<Register>, deviceId: Uuid, t: RegisterType)
    requires UniqueAddresses(rs, deviceId, t) && DistinctRegisterIds(sub)
    requires forall x :: x in sub ==> x in rs
    ensures UniqueAddresses(sub, deviceId, t)
  {
    forall a, b | 0 <= a < b < |sub| && OfType(sub[a], deviceId, t) && OfType(sub[b], deviceId, t)
      ensures sub[a].address != sub[b].address
    {
      assert sub[a].id != sub[b].id;
      assert sub[a] in rs && sub[b] in rs;
      var i :| 0 <= i < |rs| && rs[i] == sub[a];
      var j :| 0 <= j < |rs| && rs[j] == sub[b];
      assert i != j;
      if i < j {
        assert rs[i].address != rs[j].address;
      } else {
        assert rs[j].address != rs[i].address;
      }
    }
  }

  // ---------------------------------------------------------------------------
  // Registers

  /**
   * A register the first loop of `__configure_registers` created once it had
   * passed the addresses below `i`: one of the device and type, at an address
   * below `i` that had no register when the loop started, carrying the id
   * drawn for that address.
   */
  predicate Created(x: Register, rs0: seq<Register>, deviceId: Uuid, t: RegisterType, i: int, ids: seq<Uuid>)
  {
    OfType(x, deviceId, t) && 0 <= x.address < i && x.address < |ids| && x.id == ids[x.address] &&
    RegisterAt(rs0, deviceId, t, x.address).None?
  }

  /**
   * The shape of the registry while the first loop runs, for a registry that
   * was `rs0` when it started: the old registers lead, the loop's own follow
   * them, every address below `i` has a register, addresses stay unique, and
   * with contiguous old addresses enough registers were created.
   */
  predicate Shape(rs: seq<Register>, rs0: seq<Register>, deviceId: Uuid, t: RegisterType, i: int, ids: seq<Uuid>)
  {
    rs0 <= rs &&
    (forall k :: |rs0| <= k < |rs| ==> Created(rs[k], rs0, deviceId, t, i, ids)) &&
    (forall j :: 0 <= j < i ==> RegisterAt(rs, deviceId, t, j).Some?) &&
    (UniqueAddresses(rs0, deviceId, t) ==> UniqueAddresses(rs, deviceId, t)) &&
    (Contiguous(rs0, deviceId, t) ==> |rs| - |rs0| >= i - |RegistersOf(rs0, deviceId, t)|)
  }

  /** The register the lookup finds at every address below `i` has the data type and size pairing gives it. */
  ghost predicate TypedBelow(rs: seq<Register>, deviceId: Uuid, t: RegisterType, i: int)
    reads rs
  {
    forall j :: 0 <= j < i && RegisterAt(rs, deviceId, t, j).Some? ==>
      RegisterAt(rs, deviceId, t, j).value.dataType == ConfiguredDataType(t) &&
      RegisterAt(rs, deviceId, t, j).value.size == ConfiguredSize(t)
  }

  /** The registers the loop created so far sit below the address it has reached. */
  lemma CreatedBelow(rs: seq<Register>, rs0: seq<Register>, deviceId: Uuid, t: RegisterType, i: int, ids: seq<Uuid>)
    requires Shape(rs, rs0, deviceId, t, i, ids)
    ensures rs0 + rs[|rs0|..] == rs
    ensures forall x :: x in rs[|rs0|..] ==> OfType(x, deviceId, t) && 0 <= x.address < i &&
                                             x.id == ids[x.address] && x !in rs0
  {
    forall x | x in rs[|rs0|..]
      ensures OfType(x, deviceId, t) && 0 <= x.address < i && x.id == ids[x.address] && x !in rs0
    {
      var k :| 0 <= k < |rs[|rs0|..]| && rs[|rs0|..][k] == x;
      assert Created(rs[|rs0| + k], rs0, deviceId, t, i, ids);
    }
  }

  /** The register the loop finds at the address it has reached was there before the loop. */
  lemma FoundIsOld(rs: seq<Register>, rs0: seq<Register>, deviceId: Uuid, t: RegisterType, i: int, ids: seq<Uuid>, r: Register)
    requires Shape(rs, rs0, deviceId, t, i, ids)
    requires RegisterAt(rs, deviceId, t, i) == Some(r)
    ensures r in rs0 && RegisterAt(rs0, deviceId, t, i) == Some(r)
  {
    CreatedBelow(rs, rs0, deviceId, t, i, ids);
    RegisterAtAppend(rs0, rs[|rs0|..], deviceId, t, i);
  }

  /** Creating a register at the address the loop has reached, where there is none, keeps the shape one step further. */
  lemma ShapeAppend(rs: seq<Register>, rs0: seq<Register>, deviceId: Uuid, t: RegisterType, i: int, ids: seq<Uuid>, x: Register)
    requires Shape(rs, rs0, deviceId, t, i, ids)
    requires RegisterAt(rs, deviceId, t, i).None?
    requires OfType(x, deviceId, t) && x.address == i && 0 <= i < |ids| && x.id == ids[i]
    ensures Shape(rs + [x], rs0, deviceId, t, i + 1, ids)
    ensures forall j :: 0 <= j <= i ==>
              RegisterAt(rs + [x], deviceId, t, j) == if j < i then RegisterAt(rs, deviceId, t, j) else Some(x)
  {
    CreatedBelow(rs, rs0, deviceId, t, i, ids);
    RegisterAtAppend(rs0, rs[|rs0|..], deviceId, t, i);
    assert Created(x, rs0, deviceId, t, i + 1, ids);
    if UniqueAddresses(rs0, deviceId, t) {
      AppendUnique(rs, x, deviceId, t);
    }
    forall j | 0 <= j <= i
      ensures RegisterAt(rs + [x], deviceId, t, j) == if j < i then RegisterAt(rs, deviceId, t, j) else Some(x)
    {
      RegisterAtAppend(rs, [x], deviceId, t, j);
    }
    var s := rs + [x];
    forall k | |rs0| <= k < |s|
      ensures Created(s[k], rs0, deviceId, t, i + 1, ids)
    {
      if k < |rs| {
        assert Created(rs[k], rs0, deviceId, t, i, ids);
      }
    }
  }

  /** The id drawn for the address the loop has reached belongs to no register yet. */
  lemma FreshId(rs: seq<Register>, rs0: seq<Register>, deviceId: Uuid, t: RegisterType, i: int, ids: seq<Uuid>)
    requires Shape(rs, rs0, deviceId, t, i, ids)
    requires 0 <= i < |ids|
    requires forall k, x :: 0 <= k < |ids| && x in rs0 ==> x.id != ids[k]
    requires forall k, l :: 0 <= k < l < |ids| ==> ids[k] != ids[l]
    ensures forall x :: x in rs ==> x.id != ids[i]
  {
    CreatedBelow(rs, rs0, deviceId, t, i, ids);
    forall x | x in rs
      ensures x.id != ids[i]
    {
      if x !in rs0 {
        assert x in rs[|rs0|..];
      }
    }
  }

  /** One pass of the first loop at address `i` when the lookup finds `r` there: `r` gets the starting data type. */
  method ConfigureFound(conn: Connector, device: Device, t: RegisterType, i: nat, r: Register,
                        ghost rs0: seq<Register>, ghost ids: seq<Uuid>)
    requires RegisterAt(conn.registers, device.id, t, i) == Some(r)
    requires Shape(conn.registers, rs0, device.id, t, i, ids) && TypedBelow(conn.registers, device.id, t, i)
    modifies r
    ensures Shape(conn.registers, rs0, device.id, t, i + 1, ids) && TypedBelow(conn.registers, device.id, t, i + 1)
  {
    FoundIsOld(conn.registers, rs0, device.id, t, i, ids, r);
    label Before:
    r.SetDataType(ConfiguredDataType(t));
    forall j | 0 <= j <= i && RegisterAt(conn.registers, device.id, t, j).Some?
      ensures RegisterAt(conn.registers, device.id, t, j).value.dataType == ConfiguredDataType(t)
      ensures RegisterAt(conn.registers, device.id, t, j).value.size == ConfiguredSize(t)
    {
      var x := RegisterAt(conn.registers, device.id, t, j).value;
      if j < i {
        assert x != r;
        assert old@Before(x.dataType) == ConfiguredDataType(t) && old@Before(x.size) == ConfiguredSize(t);
      }
    }
    if Contiguous(rs0, device.id, t) {
      assert r.address < |RegistersOf(rs0, device.id, t)|;
    }
  }

  /** One pass of the first loop at address `i` when the lookup finds nothing: a register is created there. */
  method ConfigureMissing(conn: Connector, device: Device, t: RegisterType, i: nat,
                          ids: seq<Uuid>, channelIds: seq<Uuid>, timeMicros: nat, ghost rs0: seq<Register>)
    requires conn.Valid()
    requires i < |ids| && i < |channelIds|
    requires forall k, x :: 0 <= k < |ids| && x in rs0 ==> x.id != ids[k]
    requires forall k, l :: 0 <= k < l < |ids| ==> ids[k] != ids[l]
    requires RegisterAt(conn.registers, device.id, t, i).None?
    requires Shape(conn.registers, rs0, device.id, t, i, ids) && TypedBelow(conn.registers, device.id, t, i)
    modifies conn
    ensures conn.Valid()
    ensures conn.devices == old(conn.devices) && conn.deviceSettings == old(conn.deviceSettings) &&
            conn.registerSettings == old(conn.registerSettings)
    ensures Shape(conn.registers, rs0, device.id, t, i + 1, ids) && TypedBelow(conn.registers, device.id, t, i + 1)
    ensures forall x :: x in conn.registers ==> x in old(conn.registers) || (fresh(x) && x.id in ids)
  {
    ghost var before := conn.registers;
    FreshId(before, rs0, device.id, t, i, ids);
    var x := conn.CreateRegister(device, i, t, ConfiguredDataType(t), ids[i], channelIds[i], timeMicros);
    ShapeAppend(before, rs0, device.id, t, i, ids, x);
  }

  /**
   * The first loop of `__configure_registers`: every address below `size`
   * gets a register of the type, found or created, and the register the
   * lookup finds there has the starting data type; the registers it creates
   * are appended after the old ones.
   */
  method ConfigureAddresses(conn: Connector, device: Device, size: nat, t: RegisterType,
                            ids: seq<Uuid>, channelIds: seq<Uuid>, timeMicros: nat)
    requires conn.Valid()
    requires |ids| >= size && |channelIds| >= size
    requires forall k, x :: 0 <= k < |ids| && x in conn.registers ==> x.id != ids[k]
    requires forall k, l :: 0 <= k < l < |ids| ==> ids[k] != ids[l]
    modifies conn, set x | x in conn.registers && OfType(x, device.id, t)
    ensures conn.Valid()
    ensures conn.devices == old(conn.devices) && conn.deviceSettings == old(conn.deviceSettings) &&
            conn.registerSettings == old(conn.registerSettings)
    ensures Shape(conn.registers, old(conn.registers), device.id, t, size, ids)
    ensures TypedBelow(conn.registers, device.id, t, size)
    ensures forall x :: x in conn.registers ==> x in old(conn.registers) || (fresh(x) && x.id in ids)
  {
    ghost var rs0 := conn.registers;
    var i := 0;
    while i < size
      invariant 0 <= i <= size
      invariant conn.Valid()
      invariant forall x :: x in conn.registers ==> x in old(conn.registers) || (fresh(x) && x.id in ids)
      invariant conn.devices == old(conn.devices) && conn.deviceSettings == old(conn.deviceSettings) &&
                conn.registerSettings == old(conn.registerSettings)
      invariant Shape(conn.registers, rs0, device.id, t, i, ids) && TypedBelow(conn.registers, device.id, t, i)
    {
      var r := conn.GetRegisterByAddress(device, t, i);
      if r.Some? {
        FoundIsOld(conn.registers, rs0, device.id, t, i, ids, r.value);
        ConfigureFound(conn, device, t, i, r.value, rs0, ids);
      } else {
        ConfigureMissing(conn, device, t, i, ids, channelIds, timeMicros, rs0);
      }
      i := i + 1;
    }
  }

  /**
   * The second loop of `__configure_registers`: the register the lookup
   * finds at each address from `from` up to `to` is deleted. With unique
   * addresses none of the type is left in that range.
   */
  method DeleteRegistersFrom(conn: Connector, device: Device, t: RegisterType, from: int, to: int)
    requires conn.Valid()
    modifies conn
    ensures conn.Valid()
    ensures conn.devices == old(conn.devices) && conn.deviceSettings == old(conn.deviceSettings) &&
            conn.registerSettings == old(conn.registerSettings)
    ensures forall x :: x in conn.registers ==> x in old(conn.registers)
    ensures forall x :: x in old(conn.registers) && !(OfType(x, device.id, t) && from <= x.address < to) ==>
              x in conn.registers
    ensures UniqueAddresses(old(conn.registers), device.id, t) ==>
              UniqueAddresses(conn.registers, device.id, t) &&
              forall x :: x in conn.registers && OfType(x, device.id, t) ==> !(from <= x.address < to)
  {
    if from >= to {
      return;
    }
    ghost var rs0 := conn.registers;
    var k := from;
    while k < to
      invariant from <= k <= to
      invariant conn.Valid()
      invariant conn.devices == old(conn.devices) && conn.deviceSettings == old(conn.deviceSettings) &&
                conn.registerSettings == old(conn.registerSettings)
      invariant forall x :: x in conn.registers ==> x in rs0
      invariant forall x :: x in rs0 && !(OfType(x, device.id, t) && from <= x.address < k) ==> x in conn.registers
      invariant UniqueAddresses(rs0, device.id, t) ==>
                  UniqueAddresses(conn.registers, device.id, t) &&
                  forall x :: x in conn.registers && OfType(x, device.id, t) ==> !(from <= x.address < k)
    {
      var r := conn.GetRegisterByAddress(device, t, k);
      if r.Some? {
        ghost var before := conn.registers;
        conn.DeleteRegister(r.value);
        if UniqueAddresses(rs0, device.id, t) {
          forall x | x in conn.registers && OfType(x, device.id, t)
            ensures x.address != k
          {
            if x.address == k {
              UniqueFirst(before, device.id, t, x);
            }
          }
          SubsetUnique(rs0, conn.registers, device.id, t);
        }
      }
      k := k + 1;
    }
  }

  /**
   * `__configure_registers(device, size, t)`. `ids` and `channelIds` are the
   * `uuid.uuid4()` values the registers created for each address would get,
   * and `timeMicros` the clock their keys are made of. Only registers of the
   * device and type can change.
   *
   * Afterwards every address below `size` holds a register of the type with
   * its starting data type; registers of other devices or types are kept;
   * new registers sit below `size`. When the registers of the type were
   * numbered 0, 1, ... before, none is left at `size` or above.
   */
  method ConfigureRegisters(conn: Connector, device: Device, size: nat, t: RegisterType,
                            ids: seq<Uuid>, channelIds: seq<Uuid>, timeMicros: nat)
    requires conn.Valid()
    requires |ids| >= size && |channelIds| >= size
    requires forall k, x :: 0 <= k < |ids| && x in conn.registers ==> x.id != ids[k]
    requires forall k, l :: 0 <= k < l < |ids| ==> ids[k] != ids[l]
    modifies conn, set x | x in conn.registers && OfType(x, device.id, t)
    ensures conn.Valid()
    ensures conn.devices == old(conn.devices) && conn.deviceSettings == old(conn.deviceSettings) &&
            conn.registerSettings == old(conn.registerSettings)
    ensures forall i :: 0 <= i < size ==> ConfiguredAt(conn.registers, device.id, t, i)
    ensures forall x :: x in old(conn.registers) && !OfType(x, device.id, t) ==> x in conn.registers
    ensures forall x :: x in conn.registers ==>
              x in old(conn.registers) || (OfType(x, device.id, t) && 0 <= x.address < size)
    ensures UniqueAddresses(old(conn.registers), device.id, t) ==> UniqueAddresses(conn.registers, device.id, t)
    ensures Contiguous(old(conn.registers), device.id, t) ==>
              forall x :: x in conn.registers && OfType(x, device.id, t) ==> 0 <= x.address < size
    ensures forall x :: x in conn.registers ==> x in old(conn.registers) || (fresh(x) && x.id in ids)
  {
    ghost var rs0 := conn.registers;
    ConfigureAddresses(conn, device, size, t, ids, channelIds, timeMicros);
    ghost var mid := conn.registers;
    ghost var created := mid[|rs0|..];
    CreatedBelow(mid, rs0, device.id, t, size, ids);
    RegistersOfAppend(rs0, created, device.id, t);
    RegistersOfAll(created, device.id, t);
    var all := conn.GetRegistersByType(device, t);
    var n := |all|;
    if size < n {
      DeleteRegistersFrom(conn, device, t, size, n);
    }
    forall j | 0 <= j < size
      ensures ConfiguredAt(conn.registers, device.id, t, j)
    {
      var x := RegisterAt(mid, device.id, t, j).value;
      assert x in conn.registers;
    }
    ConfigureRegistersEnd(rs0, created, mid, conn.registers, device.id, t, size, n);
  }

  /** The facts the two loops of `__configure_registers` leave, put together. */
  lemma ConfigureRegistersEnd(rs0: seq<Register>, created: seq<Register>, mid: seq<Register>, rs: seq<Register>,
                              deviceId: Uuid, t: RegisterType, size: nat, n: int)
    requires mid == rs0 + created
    requires n == |RegistersOf(rs0, deviceId, t)| + |created|
    requires forall x :: x in created ==> OfType(x, deviceId, t) && 0 <= x.address < size
    requires Contiguous(rs0, deviceId, t) ==> |created| >= size - |RegistersOf(rs0, deviceId, t)|
    requires forall x :: x in rs ==> x in mid
    requires UniqueAddresses(rs0, deviceId, t) ==> UniqueAddresses(mid, deviceId, t)
    requires UniqueAddresses(mid, deviceId, t) ==>
               UniqueAddresses(rs, deviceId, t) &&
               forall x :: x in rs && OfType(x, deviceId, t) ==> !(size <= x.address < n)
    ensures Contiguous(rs0, deviceId, t) ==> forall x :: x in rs && OfType(x, deviceId, t) ==> 0 <= x.address < size
  {
    if Contiguous(rs0, deviceId, t) {
      forall x | x in rs && OfType(x, deviceId, t)
        ensures 0 <= x.address < size
      {
        assert x in rs0 || x in created;
      }
    }
  }

  // ---------------------------------------------------------------------------
  // Settings

  /** No two settings of the device share an address. */
  predicate UniqueSettingAddresses(ss: seq<Setting>, deviceId: Uuid)
  {
    forall a, b :: 0 <= a < b < |ss| && ss[a].deviceId == deviceId && ss[b].deviceId == deviceId ==>
      ss[a].address != ss[b].address
  }

  /** The settings of the device are numbered 0, 1, ...: distinct addresses below their count. */
  predicate SettingsContiguous(ss: seq<Setting>, deviceId: Uuid)
  {
    UniqueSettingAddresses(ss, deviceId) &&
    forall x :: x in ss && x.deviceId == deviceId ==> 0 <= x.address < |SettingsOf(ss, deviceId)|
  }

  lemma {:induction false} SettingAtAppend(a: seq<Setting>, b: seq<Setting>, deviceId: Uuid, i: int)
    ensures SettingAt(a + b, deviceId, i) ==
            if SettingAt(a, deviceId, i).Some? then SettingAt(a, deviceId, i) else SettingAt(b, deviceId, i)
  {
    if a == [] {
      assert a + b == b;
    } else {
      assert (a + b)[1..] == a[1..] + b;
      SettingAtAppend(a[1..], b, deviceId, i);
    }
  }

  lemma {:induction false} SettingsOfAppend(a: seq<Setting>, b: seq<Setting>, deviceId: Uuid)
    ensures SettingsOf(a + b, deviceId) == SettingsOf(a, deviceId) + SettingsOf(b, deviceId)
  {
    if a == [] {
      assert a + b == b;
    } else {
      assert (a + b)[1..] == a[1..] + b;
      SettingsOfAppend(a[1..], b, deviceId);
    }
  }

  lemma {:induction false} SettingsOfAll(s: seq<Setting>, deviceId: Uuid)
    requires forall x :: x in s ==> x.deviceId == deviceId
    ensures SettingsOf(s, deviceId) == s
  {
    if s != [] {
      assert forall x :: x in s[1..] ==> x in s;
      assert s[0] in s;
      SettingsOfAll(s[1..], deviceId);
      assert [s[0]] + s[1..] == s;
    }
  }

  lemma SettingUniqueFirst(ss: seq<Setting>, deviceId: Uuid, x: Setting)
    requires UniqueSettingAddresses(ss, deviceId)
    requires x in ss && x.deviceId == deviceId
    ensures SettingAt(ss, deviceId, x.address) == Some(x)
  {
    var y := SettingAt(ss, deviceId, x.address).value;
    var a :| 0 <= a < |ss| && ss[a] == x;
    var b :| 0 <= b < |ss| && ss[b] == y;
    if a != b {
      assert false;
    }
  }

  lemma SettingAppendUnique(ss: seq<Setting>, x: Setting, deviceId: Uuid)
    requires UniqueSettingAddresses(ss, deviceId)
    requires SettingAt(ss, deviceId, x.address).None?
    ensures UniqueSettingAddresses(ss + [x], deviceId)
  {
    var s := ss + [x];
    forall a, b | 0 <= a < b < |s| && s[a].deviceId == deviceId && s[b].deviceId == deviceId
      ensures s[a].address != s[b].address
    {
      if b == |ss| {
        assert s[a] in ss;
      }
    }
  }

  lemma SettingSubsetUnique(ss: seq<Setting>, sub: seq<Setting>, deviceId: Uuid)
    requires UniqueSettingAddresses(ss, deviceId) && DistinctSettingIds(sub)
    requires forall x :: x in sub ==> x in ss
    ensures UniqueSettingAddresses(sub, deviceId)
  {
    forall a, b | 0 <= a < b < |sub| && sub[a].deviceId == deviceId && sub[b].deviceId == deviceId
      ensures sub[a].address != sub[b].address
    {
      assert sub[a].id != sub[b].id;
      assert sub[a] in ss && sub[b] in ss;
      var i :| 0 <= i < |ss| && ss[i] == sub[a];
      var j :| 0 <= j < |ss| && ss[j] == sub[b];
      assert i != j;
      if i < j {
        assert ss[i].address != ss[j].address;
      } else {
        assert ss[j].address != ss[i].address;
      }
    }
  }

  /** A setting the first loop of `__configure_settings` created at an address below `i` that had none. */
  predicate SettingCreated(x: Setting, ss0: seq<Setting>, deviceId: Uuid, i: int, ids: seq<Uuid>)
  {
    x.deviceId == deviceId && 0 <= x.address < i && x.address < |ids| && x.id == ids[x.address] &&
    SettingAt(ss0, deviceId, x.address).None?
  }

  /** The shape of the settings registry while the first loop runs, as `Shape` is for registers. */
  predicate SettingShape(ss: seq<Setting>, ss0: seq<Setting>, deviceId: Uuid, i: int, ids: seq<Uuid>)
  {
    ss0 <= ss &&
    (forall k :: |ss0| <= k < |ss| ==> SettingCreated(ss[k], ss0, deviceId, i, ids)) &&
    (forall j :: 0 <= j < i ==> SettingAt(ss, deviceId, j).Some?) &&
    (UniqueSettingAddresses(ss0, deviceId) ==> UniqueSettingAddresses(ss, deviceId)) &&
    (SettingsContiguous(ss0, deviceId) ==> |ss| - |ss0| >= i - |SettingsOf(ss0, deviceId)|)
  }

  lemma SettingCreatedBelow(ss: seq<Setting>, ss0: seq<Setting>, deviceId: Uuid, i: int, ids: seq<Uuid>)
    requires SettingShape(ss, ss0, deviceId, i, ids)
    ensures ss0 + ss[|ss0|..] == ss
    ensures forall x :: x in ss[|ss0|..] ==> x.deviceId == deviceId && 0 <= x.address < i &&
                                             x.id == ids[x.address] && x !in ss0
  {
    forall x | x in ss[|ss0|..]
      ensures x.deviceId == deviceId && 0 <= x.address < i && x.id == ids[x.address] && x !in ss0
    {
      var k :| 0 <= k < |ss[|ss0|..]| && ss[|ss0|..][k] == x;
      assert SettingCreated(ss[|ss0| + k], ss0, deviceId, i, ids);
    }
  }

  /** Finding a setting at the address the loop has reached keeps the shape one step further. */
  lemma SettingShapeFound(ss: seq<Setting>, ss0: seq<Setting>, deviceId: Uuid, i: int, ids: seq<Uuid>)
    requires SettingShape(ss, ss0, deviceId, i, ids)
    requires SettingAt(ss, deviceId, i).Some?
    ensures SettingShape(ss, ss0, deviceId, i + 1, ids)
  {
    SettingCreatedBelow(ss, ss0, deviceId, i, ids);
    SettingAtAppend(ss0, ss[|ss0|..], deviceId, i);
    forall k | |ss0| <= k < |ss|
      ensures SettingCreated(ss[k], ss0, deviceId, i + 1, ids)
    {
      assert SettingCreated(ss[k], ss0, deviceId, i, ids);
    }
    if SettingsContiguous(ss0, deviceId) {
      var x := SettingAt(ss0, deviceId, i).value;
      assert x.address < |SettingsOf(ss0, deviceId)|;
    }
  }

  /** Creating a setting at the address the loop has reached, where there is none, keeps the shape one step further. */
  lemma SettingShapeAppend(ss: seq<Setting>, ss0: seq<Setting>, deviceId: Uuid, i: int, ids: seq<Uuid>, x: Setting)
    requires SettingShape(ss, ss0, deviceId, i, ids)
    requires SettingAt(ss, deviceId, i).None?
    requires x.deviceId == deviceId && x.address == i && 0 <= i < |ids| && x.id == ids[i]
    ensures SettingShape(ss + [x], ss0, deviceId, i + 1, ids)
  {
    SettingCreatedBelow(ss, ss0, deviceId, i, ids);
    SettingAtAppend(ss0, ss[|ss0|..], deviceId, i);
    assert SettingCreated(x, ss0, deviceId, i + 1, ids);
    if UniqueSettingAddresses(ss0, deviceId) {
      SettingAppendUnique(ss, x, deviceId);
    }
    forall j | 0 <= j <= i
      ensures SettingAt(ss + [x], deviceId, j).Some?
    {
      SettingAtAppend(ss, [x], deviceId, j);
    }
    var s := ss + [x];
    forall k | |ss0| <= k < |s|
      ensures SettingCreated(s[k], ss0, deviceId, i + 1, ids)
    {
      if k < |ss| {
        assert SettingCreated(ss[k], ss0, deviceId, i, ids);
      }
    }
  }

  lemma SettingFreshId(ss: seq<Setting>, ss0: seq<Setting>, deviceId: Uuid, i: int, ids: seq<Uuid>)
    requires SettingShape(ss, ss0, deviceId, i, ids)
    requires 0 <= i < |ids|
    requires forall k, x :: 0 <= k < |ids| && x in ss0 ==> x.id != ids[k]
    requires forall k, l :: 0 <= k < l < |ids| ==> ids[k] != ids[l]
    ensures forall x :: x in ss ==> x.id != ids[i]
  {
    SettingCreatedBelow(ss, ss0, deviceId, i, ids);
    forall x | x in ss
      ensures x.id != ids[i]
    {
      if x !in ss0 {
        assert x in ss[|ss0|..];
      }
    }
  }

  /** The first loop of `__configure_settings`: every address below `size` gets a setting, found or created. */
  method ConfigureSettingAddresses(conn: Connector, device: Device, size: nat, kind: SettingType, ids: seq<Uuid>)
    requires conn.Valid()
    requires |ids| >= size
    requires forall k, x :: 0 <= k < |ids| && x in conn.SettingsRegistry(kind) ==> x.id != ids[k]
    requires forall k, l :: 0 <= k < l < |ids| ==> ids[k] != ids[l]
    modifies conn
    ensures conn.Valid()
    ensures conn.devices == old(conn.devices) && conn.registers == old(conn.registers)
    ensures kind == DeviceSetting ==> conn.registerSettings == old(conn.registerSettings)
    ensures kind == RegisterSetting ==> conn.deviceSettings == old(conn.deviceSettings)
    ensures SettingShape(conn.SettingsRegistry(kind), old(conn.SettingsRegistry(kind)), device.id, size, ids)
  {
    ghost var ss0 := conn.SettingsRegistry(kind);
    var i := 0;
    while i < size
      invariant 0 <= i <= size
      invariant conn.Valid()
      invariant conn.devices == old(conn.devices) && conn.registers == old(conn.registers)
      invariant kind == DeviceSetting ==> conn.registerSettings == old(conn.registerSettings)
      invariant kind == RegisterSetting ==> conn.deviceSettings == old(conn.deviceSettings)
      invariant SettingShape(conn.SettingsRegistry(kind), ss0, device.id, i, ids)
    {
      var found := conn.GetSettingByAddress(device, kind, i);
      if found.None? {
        ghost var before := conn.SettingsRegistry(kind);
        SettingFreshId(before, ss0, device.id, i, ids);
        var x := conn.CreateSetting(device, i, kind, ids[i]);
        SettingShapeAppend(before, ss0, device.id, i, ids, x);
      } else {
        SettingShapeFound(conn.SettingsRegistry(kind), ss0, device.id, i, ids);
      }
      i := i + 1;
    }
  }

  /**
   * What the second loop of `__configure_settings` has done to a registry
   * that was `ss0`, once it has passed the addresses from `from` up to `k`.
   */
  predicate DeletedBelow(ss: seq<Setting>, ss0: seq<Setting>, deviceId: Uuid, from: int, k: int)
  {
    (forall x :: x in ss ==> x in ss0) &&
    (forall x :: x in ss0 && !(x.deviceId == deviceId && from <= x.address < k) ==> x in ss) &&
    (UniqueSettingAddresses(ss0, deviceId) ==>
       UniqueSettingAddresses(ss, deviceId) &&
       forall x :: x in ss && x.deviceId == deviceId ==> !(from <= x.address < k))
  }

  /** Deleting the setting found at address `k`, or finding none there, moves the loop one address on. */
  lemma DeleteSettingStep(ss: seq<Setting>, after: seq<Setting>, ss0: seq<Setting>, deviceId: Uuid, from: int, k: int)
    requires DistinctSettingIds(ss) && DeletedBelow(ss, ss0, deviceId, from, k) && from <= k
    requires SettingAt(ss, deviceId, k).None? ==> after == ss
    requires SettingAt(ss, deviceId, k).Some? ==> after == WithoutSetting(ss, SettingAt(ss, deviceId, k).value.id)
    ensures DeletedBelow(after, ss0, deviceId, from, k + 1)
  {
    if SettingAt(ss, deviceId, k).Some? {
      WithoutSettingDistinct(ss, SettingAt(ss, deviceId, k).value.id);
      if UniqueSettingAddresses(ss0, deviceId) {
        forall x | x in after && x.deviceId == deviceId
          ensures x.address != k
        {
          if x.address == k {
            SettingUniqueFirst(ss, deviceId, x);
          }
        }
        SettingSubsetUnique(ss0, after, deviceId);
      }
    }
  }

  /** The second loop of `__configure_settings`: the setting found at each address from `from` up to `to` is deleted. */
  method DeleteSettingsFrom(conn: Connector, device: Device, kind: SettingType, from: int, to: int)
    requires conn.Valid()
    modifies conn
    ensures conn.Valid()
    ensures conn.devices == old(conn.devices) && conn.registers == old(conn.registers)
    ensures kind == DeviceSetting ==> conn.registerSettings == old(conn.registerSettings)
    ensures kind == RegisterSetting ==> conn.deviceSettings == old(conn.deviceSettings)
    ensures DeletedBelow(conn.SettingsRegistry(kind), old(conn.SettingsRegistry(kind)), device.id, from, to)
  {
    ghost var ss0 := conn.SettingsRegistry(kind);
    if from >= to {
      return;
    }
    var k := from;
    while k < to
      invariant from <= k <= to
      invariant conn.Valid()
      invariant conn.devices == old(conn.devices) && conn.registers == old(conn.registers)
      invariant kind == DeviceSetting ==> conn.registerSettings == old(conn.registerSettings)
      invariant kind == RegisterSetting ==> conn.deviceSettings == old(conn.deviceSettings)
      invariant DeletedBelow(conn.SettingsRegistry(kind), ss0, device.id, from, k)
    {
      ghost var before := conn.SettingsRegistry(kind);
      var found := conn.GetSettingByAddress(device, kind, k);
      if found.Some? {
        assert found.value.kind == kind;
        conn.DeleteSetting(found.value);
      }
      DeleteSettingStep(before, conn.SettingsRegistry(kind), ss0, device.id, from, k);
      k := k + 1;
    }
  }

  /**
   * `__configure_settings(device, size, kind)`: `ids` are the `uuid.uuid4()`
   * values the settings created for each address would get. Afterwards every
   * address below `size` holds a setting of the device in the registry of
   * that kind; settings of other devices are kept; new settings sit below
   * `size`; and when the device's settings were numbered 0, 1, ... before,
   * none is left at `size` or above.
   */
  method ConfigureSettings(conn: Connector, device: Device, size: nat, kind: SettingType, ids: seq<Uuid>)
    requires conn.Valid()
    requires |ids| >= size
    requires forall k, x :: 0 <= k < |ids| && x in conn.SettingsRegistry(kind) ==> x.id != ids[k]
    requires forall k, l :: 0 <= k < l < |ids| ==> ids[k] != ids[l]
    modifies conn
    ensures conn.Valid()
    ensures conn.devices == old(conn.devices) && conn.registers == old(conn.registers)
    ensures kind == DeviceSetting ==> conn.registerSettings == old(conn.registerSettings)
    ensures kind == RegisterSetting ==> conn.deviceSettings == old(conn.deviceSettings)
    ensures forall i :: 0 <= i < size ==> SettingAt(conn.SettingsRegistry(kind), device.id, i).Some?
    ensures forall x :: x in old(conn.SettingsRegistry(kind)) && x.deviceId != device.id ==> x in conn.SettingsRegistry(kind)
    ensures forall x :: x in conn.SettingsRegistry(kind) ==>
              x in old(conn.SettingsRegistry(kind)) || (x.deviceId == device.id && 0 <= x.address < size)
    ensures UniqueSettingAddresses(old(conn.SettingsRegistry(kind)), device.id) ==>
              UniqueSettingAddresses(conn.SettingsRegistry(kind), device.id)
    ensures SettingsContiguous(old(conn.SettingsRegistry(kind)), device.id) ==>
              forall x :: x in conn.SettingsRegistry(kind) && x.deviceId == device.id ==> 0 <= x.address < size
    ensures forall x :: x in conn.SettingsRegistry(kind) && x !in old(conn.SettingsRegistry(kind)) ==> x.id in ids
  {
    ghost var ss0 := conn.SettingsRegistry(kind);
    ConfigureSettingAddresses(conn, device, size, kind, ids);
    ghost var mid := conn.SettingsRegistry(kind);
    ghost var created := mid[|ss0|..];
    SettingCreatedBelow(mid, ss0, device.id, size, ids);
    SettingsOfAppend(ss0, created, device.id);
    SettingsOfAll(created, device.id);
    var all := conn.GetSettingsByType(device, kind);
    var n := |all|;
    if size < n {
      DeleteSettingsFrom(conn, device, kind, size, n);
    }
    forall j | 0 <= j < size
      ensures SettingAt(conn.SettingsRegistry(kind), device.id, j).Some?
    {
      var x := SettingAt(mid, device.id, j).value;
      assert x in conn.SettingsRegistry(kind);
    }
    ConfigureSettingsEnd(ss0, created, mid, conn.SettingsRegistry(kind), device.id, size, n);
    forall x | x in conn.SettingsRegistry(kind) && x !in ss0
      ensures x.id in ids
    {
      assert x in created;
    }
  }

  lemma ConfigureSettingsEnd(ss0: seq<Setting>, created: seq<Setting>, mid: seq<Setting>, ss: seq<Setting>,
                             deviceId: Uuid, size: nat, n: int)
    requires mid == ss0 + created
    requires n == |SettingsOf(ss0, deviceId)| + |created|
    requires forall x :: x in created ==> x.deviceId == deviceId && 0 <= x.address < size
    requires SettingsContiguous(ss0, deviceId) ==> |created| >= size - |SettingsOf(ss0, deviceId)|
    requires forall x :: x in ss ==> x in mid
    requires UniqueSettingAddresses(ss0, deviceId) ==> UniqueSettingAddresses(mid, deviceId)
    requires UniqueSettingAddresses(mid, deviceId) ==>
               UniqueSettingAddresses(ss, deviceId) &&
               forall x :: x in ss && x.deviceId == deviceId ==> !(size <= x.address < n)
    ensures SettingsContiguous(ss0, deviceId) ==> forall x :: x in ss && x.deviceId == deviceId ==> 0 <= x.address < size
  {
    if SettingsContiguous(ss0, deviceId) {
      forall x | x in ss && x.deviceId == deviceId
        ensures 0 <= x.address < size
      {
        assert x in ss0 || x in created;
      }
    }
  }
}
