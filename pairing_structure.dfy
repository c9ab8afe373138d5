// The structure replies of pairing (`__registers_structure_receiver` and
// `__settings_structure_receiver` in
// miniserver_gateway/connectors/fb_bus/utilities/pairing_helper.py).
//
// A registers-structure reply carries one data-type byte per register of a
// window of addresses; a settings-structure reply carries one entry per
// setting, entries separated by a space byte. The receivers store what they
// read on the registers and settings the registry holds at those addresses
// and move the device's reading pointer to the next window.
//
// The registers receiver as written walks the addresses from the window's
// start up to the length of the whole payload instead of up to the end of
// the window; both loops are modelled, and the pairing helper uses the one
// bounded by the window.

module FbBusPairingStructure {
  import opened Common
  import opened FbBusTypes
  import opened FbBusDevice
  import opened FbBusRegister
  import opened FbBusSetting
  import opened FbBusConnector
  import opened FbBusPairingConfigure
  import FbBusHelpers

  /** The offset of the first entry in a structure reply. */
  const EntriesStart: nat := 7

  // ---------------------------------------------------------------------------
  // Registers

  /** A data type stored on the register at an address. */
  datatype TypeWrite = TypeWrite(address: int, dataType: DataType)

  /** The data types a reply stores, and whether reading it ran past its end (IndexError). */
  datatype TypeScan = TypeScan(writes: seq<TypeWrite>, raised: bool)

  /** The addresses at which the device has a register of the type. */
  function AddressesOf(rs: seq<Register>, deviceId: Uuid, t: RegisterType): (s: set<int>)
    ensures forall a :: a in s <==> RegisterAt(rs, deviceId, t, a).Some?
  {
    set x | x in rs && OfType(x, deviceId, t) :: x.address
  }

  /**
   * One address of the receiver's loop, its byte at `bp`: an address with a
   * register reads its byte, stores the data type when the byte names one,
   * and raises when the byte is past the payload; an address without one
   * reads nothing.
   */
  function StepTypes(p: seq<Byte>, present: set<int>, i: int, bp: nat): (r: TypeScan)
    ensures |r.writes| <= 1 && (r.raised ==> r.writes == [])
    ensures forall k :: 0 <= k < |r.writes| ==> r.writes[k].address == i && i in present
  {
    if i !in present then TypeScan([], false)
    else if bp >= |p| then TypeScan([], true)
    else match DataTypeFromCode(p[bp])
      case None => TypeScan([], false)
      case Some(t) => TypeScan([TypeWrite(i, t)], false)
  }

  /** The loop from address `i` (byte `bp`) up to `end`, stopping at the first raise. */
  function ScanTypes(p: seq<Byte>, present: set<int>, i: int, end: int, bp: nat): TypeScan
    decreases end - i
  {
    if i >= end then TypeScan([], false)
    else
      var h := StepTypes(p, present, i, bp);
      if h.raised then h
      else
        var rest := ScanTypes(p, present, i + 1, end, bp + 1);
        TypeScan(h.writes + rest.writes, rest.raised)
  }

  /** Writes at addresses of `present` in `[i, end)`, strictly increasing. */
  predicate WritesWithin(ws: seq<TypeWrite>, present: set<int>, i: int, end: int)
  {
    (forall k :: 0 <= k < |ws| ==> i <= ws[k].address < end && ws[k].address in present) &&
    (forall k, l :: 0 <= k < l < |ws| ==> ws[k].address < ws[l].address)
  }

  /**
   * The loop stores only on registers that exist, at addresses of the
   * window, each address at most once and in increasing order.
   */
  lemma {:induction false} ScanTypesWrites(p: seq<Byte>, present: set<int>, i: int, end: int, bp: nat)
    ensures WritesWithin(ScanTypes(p, present, i, end, bp).writes, present, i, end)
    decreases end - i
  {
    if i < end {
      ScanTypesWrites(p, present, i + 1, end, bp + 1);
      var h := StepTypes(p, present, i, bp);
      var rest := ScanTypes(p, present, i + 1, end, bp + 1);
      if !h.raised {
        var w := h.writes + rest.writes;
        forall k | 0 <= k < |w|
          ensures i <= w[k].address < end && w[k].address in present
        {
          if k >= |h.writes| {
            assert w[k] == rest.writes[k - |h.writes|];
          } else {
            assert w[k] == h.writes[k];
          }
        }
        forall k, l | 0 <= k < l < |w|
          ensures w[k].address < w[l].address
        {
          if k >= |h.writes| {
            assert w[k] == rest.writes[k - |h.writes|] && w[l] == rest.writes[l - |h.writes|];
          } else {
            assert w[l] == rest.writes[l - |h.writes|];
          }
        }
      }
    }
  }

  /** The loop from address `i` is its first step followed, unless that raised, by the loop from `i + 1`. */
  lemma ScanTypesUnroll(p: seq<Byte>, present: set<int>, i: int, end: int, bp: nat)
    requires i < end
    ensures var h := StepTypes(p, present, i, bp);
            var rest := ScanTypes(p, present, i + 1, end, bp + 1);
            ScanTypes(p, present, i, end, bp) == if h.raised then h else TypeScan(h.writes + rest.writes, rest.raised)
  {
  }

  /** The data type written at an address, if any (the last such write). */
  function WrittenType(ws: seq<TypeWrite>, a: int): Option<DataType>
  {
    if ws == [] then None
    else if ws[|ws| - 1].address == a then Some(ws[|ws| - 1].dataType)
    else WrittenType(ws[..|ws| - 1], a)
  }

  /**
   * The data type and size of register `x` after the writes, from `d0` and
   * `s0`: only the register the lookup at its address finds is written.
   */
  function Typed(ws: seq<TypeWrite>, rs: seq<Register>, deviceId: Uuid, t: RegisterType, x: Register,
                 d0: DataType, s0: nat): (DataType, nat)
  {
    var w := WrittenType(ws, x.address);
    if RegisterAt(rs, deviceId, t, x.address) == Some(x) && w.Some? then (w.value, SizeAfter(w.value, s0))
    else (d0, s0)
  }

  /** What the device does after a registers-structure reply it read to the end. */
  function RegistersStructuredView(v: DeviceView, t: RegisterType, start: int, length: int,
                                   count: nat, aoCount: nat): DeviceView
  {
    var w := ResetCommunication(v);
    if count > start + length then w.(readingRegisterAddress := Some(start + length), readingRegisterType := Some(t))
    else if t == AI && aoCount > 0 then w.(readingRegisterAddress := Some(0), readingRegisterType := Some(AO))
    else w.(pairingCmd := Some(ProvideSettingsSize))
  }

  /** Later writes win: the writes of `ws2` at an address hide those of `ws1`. */
  lemma {:induction false} WrittenTypeAppend(ws1: seq<TypeWrite>, ws2: seq<TypeWrite>, a: int)
    ensures WrittenType(ws1 + ws2, a) == if WrittenType(ws2, a).Some? then WrittenType(ws2, a) else WrittenType(ws1, a)
    decreases |ws2|
  {
    if ws2 == [] {
      assert ws1 + ws2 == ws1;
    } else {
      assert (ws1 + ws2)[..|ws1 + ws2| - 1] == ws1 + ws2[..|ws2| - 1];
      WrittenTypeAppend(ws1, ws2[..|ws2| - 1], a);
    }
  }

  /** Writes at addresses other than `a` write nothing at `a`. */
  lemma {:induction false} WrittenTypeElsewhere(ws: seq<TypeWrite>, a: int)
    requires forall k :: 0 <= k < |ws| ==> ws[k].address != a
    ensures WrittenType(ws, a).None?
  {
    if ws != [] {
      WrittenTypeElsewhere(ws[..|ws| - 1], a);
    }
  }

  /** The step at a fresh address continues from what the earlier writes left. */
  lemma TypedAppend(done: seq<TypeWrite>, h: seq<TypeWrite>, i: int, rs: seq<Register>, deviceId: Uuid,
                    t: RegisterType, x: Register, d0: DataType, s0: nat)
    requires forall k :: 0 <= k < |done| ==> done[k].address < i
    requires forall k :: 0 <= k < |h| ==> h[k].address == i
    ensures var m := Typed(done, rs, deviceId, t, x, d0, s0);
            Typed(done + h, rs, deviceId, t, x, d0, s0) == Typed(h, rs, deviceId, t, x, m.0, m.1)
  {
    WrittenTypeAppend(done, h, x.address);
    if x.address == i {
      WrittenTypeElsewhere(done, i);
    } else {
      WrittenTypeElsewhere(h, x.address);
    }
  }

  /** One address of the loop as the receiver runs it. */
  method StoreTypeAt(conn: Connector, device: Device, t: RegisterType, i: int, bp: nat, payload: seq<Byte>)
    returns (h: TypeScan)
    modifies conn.registers`dataType, conn.registers`size
    ensures h == StepTypes(payload, AddressesOf(conn.registers, device.id, t), i, bp)
    ensures forall x :: x in conn.registers ==>
              (x.dataType, x.size) == Typed(h.writes, conn.registers, device.id, t, x, old(x.dataType), old(x.size))
  {
    var r := conn.GetRegisterByAddress(device, t, i);
    if r.None? {
      return TypeScan([], false);
    }
    if bp >= |payload| {
      return TypeScan([], true);
    }
    var code := DataTypeFromCode(payload[bp]);
    if code.None? {
      return TypeScan([], false);
    }
    var w := TypeWrite(i, code.value);
    assert [w][..0] == [];
    r.value.SetDataType(code.value);
    h := TypeScan([w], false);
    forall x | x in conn.registers
      ensures (x.dataType, x.size) == Typed(h.writes, conn.registers, device.id, t, x, old(x.dataType), old(x.size))
    {
      if x == r.value {
        assert WrittenType(h.writes, x.address) == Some(code.value);
        assert RegisterAt(conn.registers, device.id, t, x.address) == Some(x);
      } else {
        assert x.dataType == old(x.dataType) && x.size == old(x.size);
        if x.address == i {
          assert RegisterAt(conn.registers, device.id, t, x.address) != Some(x);
        } else {
          assert WrittenType(h.writes, x.address) == None;
        }
      }
    }
  }

  /** The data type and size of each register of a registry. */
  function TypesOf(rs: seq<Register>): (m: map<Register, (DataType, nat)>)
    reads rs
    ensures forall x :: x in rs ==> x in m && m[x] == (x.dataType, x.size)
  {
    map x | x in rs :: (x.dataType, x.size)
  }

  /** Every register of `rs` holds what the writes make of its data type and size in `before`. */
  ghost predicate TypedFrom(rs: seq<Register>, deviceId: Uuid, t: RegisterType, ws: seq<TypeWrite>,
                            before: map<Register, (DataType, nat)>)
    reads rs
  {
    forall x :: x in rs && x in before ==>
      (x.dataType, x.size) == Typed(ws, rs, deviceId, t, x, before[x].0, before[x].1)
  }

  /** One more address of the loop keeps `TypedFrom`. */
  lemma TypedStep(rs: seq<Register>, deviceId: Uuid, t: RegisterType, done: seq<TypeWrite>, h: seq<TypeWrite>,
                  i: int, before: map<Register, (DataType, nat)>, mid: map<Register, (DataType, nat)>)
    requires forall k :: 0 <= k < |done| ==> done[k].address < i
    requires forall k :: 0 <= k < |h| ==> h[k].address == i
    requires forall x :: x in rs ==> x in mid
    requires forall x :: x in rs && x in before ==> mid[x] == Typed(done, rs, deviceId, t, x, before[x].0, before[x].1)
    requires forall x :: x in rs ==> (x.dataType, x.size) == Typed(h, rs, deviceId, t, x, mid[x].0, mid[x].1)
    ensures TypedFrom(rs, deviceId, t, done + h, before)
  {
    forall x | x in rs && x in before
      ensures (x.dataType, x.size) == Typed(done + h, rs, deviceId, t, x, before[x].0, before[x].1)
    {
      TypedAppend(done, h, i, rs, deviceId, t, x, before[x].0, before[x].1);
    }
  }

  /** The whole type scan as the loop accounts for it at address `i`: `done` stored, the rest of it to come. */
  ghost function TypesAccount(p: seq<Byte>, present: set<int>, i: int, end: int, bp: nat, done: seq<TypeWrite>): TypeScan
  {
    var rest := ScanTypes(p, present, i, end, bp);
    TypeScan(done + rest.writes, rest.raised)
  }

  /** One address of the loop: a raise ends the scan with `done`, otherwise its write joins `done`. */
  lemma ScanAdvance(p: seq<Byte>, present: set<int>, i: int, end: int, bp: nat, done: seq<TypeWrite>, all: TypeScan,
                    h: TypeScan)
    requires i < end && h == StepTypes(p, present, i, bp)
    requires TypesAccount(p, present, i, end, bp, done) == all
    ensures h.raised ==> all.raised && all.writes == done
    ensures !h.raised ==> TypesAccount(p, present, i + 1, end, bp + 1, done + h.writes) == all
  {
    var rest := ScanTypes(p, present, i + 1, end, bp + 1);
    if h.raised {
      assert done + [] == done;
    } else {
      assert done + (h.writes + rest.writes) == (done + h.writes) + rest.writes;
    }
  }

  /**
   * The loop of `__registers_structure_receiver` over addresses `start` up
   * to `end`, the first byte at offset 7. `raised` is the IndexError of a
   * byte read past the payload; what was stored before it stays stored.
   */
  method StoreRegisterTypes(conn: Connector, device: Device, t: RegisterType, start: nat, end: int,
                            payload: seq<Byte>) returns (raised: bool)
    modifies conn.registers`dataType, conn.registers`size
    ensures var scan := ScanTypes(payload, AddressesOf(conn.registers, device.id, t), start, end, EntriesStart);
            raised == scan.raised &&
            TypedFrom(conn.registers, device.id, t, scan.writes, old(TypesOf(conn.registers)))
  {
    ghost var rs := conn.registers;
    ghost var before := TypesOf(rs);
    ghost var present := AddressesOf(rs, device.id, t);
    ghost var all := ScanTypes(payload, present, start, end, EntriesStart);
    ghost var done: seq<TypeWrite> := [];
    var i := start;
    var bp := EntriesStart;
    assert [] + all.writes == all.writes;
    while i < end
      invariant conn.registers == rs
      invariant TypesAccount(payload, present, i, end, bp, done) == all
      invariant forall k :: 0 <= k < |done| ==> done[k].address < i
      invariant TypedFrom(rs, device.id, t, done, before)
      decreases end - i
    {
      var h := StoreTypeStep(conn, device, t, i, end, bp, payload, present, done, all, before);
      if h.raised {
        assert done + h.writes == done;
        return true;
      }
      done := done + h.writes;
      i := i + 1;
      bp := bp + 1;
    }
    assert done + [] == done;
    return false;
  }

  /** One address of that loop, with its account of the scan and of what is stored. */
  method StoreTypeStep(conn: Connector, device: Device, t: RegisterType, i: int, end: int, bp: nat, payload: seq<Byte>,
                       ghost present: set<int>, ghost done: seq<TypeWrite>, ghost all: TypeScan,
                       ghost before: map<Register, (DataType, nat)>) returns (h: TypeScan)
    requires i < end && present == AddressesOf(conn.registers, device.id, t)
    requires TypesAccount(payload, present, i, end, bp, done) == all
    requires forall k :: 0 <= k < |done| ==> done[k].address < i
    requires TypedFrom(conn.registers, device.id, t, done, before)
    modifies conn.registers`dataType, conn.registers`size
    ensures h.raised ==> h.writes == [] && all.raised && all.writes == done
    ensures !h.raised ==> TypesAccount(payload, present, i + 1, end, bp + 1, done + h.writes) == all
    ensures forall k :: 0 <= k < |done + h.writes| ==> (done + h.writes)[k].address < i + 1
    ensures TypedFrom(conn.registers, device.id, t, done + h.writes, before)
  {
    ghost var mid := TypesOf(conn.registers);
    h := StoreTypeAt(conn, device, t, i, bp, payload);
    assert h == StepTypes(payload, present, i, bp);
    ScanAdvance(payload, present, i, end, bp, done, all, h);
    TypedStep(conn.registers, device.id, t, done, h.writes, i, before, mid);
  }

  /** The 16-bit field of a reply at `at`, high byte first. */
  function ReplyWord(payload: seq<Byte>, at: nat): int
    requires at + 1 < |payload|
  {
    Word(payload[at], payload[at + 1])
  }

  /** The reading pointer after a reply read to the end (the tail of the receiver). */
  method AdvanceRegisters(conn: Connector, device: Device, t: RegisterType, start: int, length: int, count: nat)
    modifies device
    ensures device.View() == RegistersStructuredView(old(device.View()), t, start, length, count,
                                                     |RegistersOf(conn.registers, device.id, AO)|)
  {
    device.ResetCommunicationState();
    if count > start + length {
      device.SetReadingRegister(start + length, t);
    } else {
      var ao := conn.GetRegistersByType(device, AO);
      if t == AI && |ao| > 0 {
        device.SetReadingRegister(0, AO);
      } else {
        device.SetPairingCmd(Some(ProvideSettingsSize));
      }
    }
  }

  /**
   * The receiver once the register type, start and length are decoded:
   * nothing happens when the device has no registers of the type; else the
   * loop up to `end` stores the data types and, unless it raised, the
   * pointer moves on.
   */
  method TypedRegistersReply(conn: Connector, device: Device, t: RegisterType, start: nat, length: nat, end: int,
                             payload: seq<Byte>) returns (raised: bool)
    modifies device, conn.registers`dataType, conn.registers`size
    ensures var count := |RegistersOf(conn.registers, device.id, t)|;
            var scan := ScanTypes(payload, AddressesOf(conn.registers, device.id, t), start, end, EntriesStart);
            (count == 0 ==> !raised && device.View() == old(device.View()) &&
                            forall x :: x in conn.registers ==> x.dataType == old(x.dataType) && x.size == old(x.size)) &&
            (count > 0 ==>
              raised == scan.raised &&
              (forall x :: x in conn.registers ==>
                (x.dataType, x.size) == Typed(scan.writes, conn.registers, device.id, t, x, old(x.dataType), old(x.size))) &&
              device.View() == if raised then old(device.View())
                               else RegistersStructuredView(old(device.View()), t, start, length, count,
                                                            |RegistersOf(conn.registers, device.id, AO)|))
  {
    var registers := conn.GetRegistersByType(device, t);
    if |registers| == 0 {
      return false;
    }
    raised := StoreRegisterTypes(conn, device, t, start, end, payload);
    if !raised {
      AdvanceRegisters(conn, device, t, start, length, |registers|);
    }
  }

  /** A payload too short for its header (IndexError) or naming no register type changes nothing. */
  predicate RegistersHeader(payload: seq<Byte>)
  {
    |payload| >= 7 && RegisterTypeFromCode(payload[2]).Some?
  }

  /**
   * `__registers_structure_receiver` as written, after the device lookup:
   * the address loop runs up to the length of the payload. A payload too
   * short for its header raises before anything changes; a type the bus
   * does not know is ignored.
   */
  method RegistersReplyAsWritten(conn: Connector, device: Device, payload: seq<Byte>) returns (raised: bool)
    modifies device, conn.registers`dataType, conn.registers`size
    ensures !RegistersHeader(payload) ==>
              raised == (|payload| < 3 || RegisterTypeFromCode(payload[2]).Some?) &&
              device.View() == old(device.View()) &&
              forall x :: x in conn.registers ==> x.dataType == old(x.dataType) && x.size == old(x.size)
    ensures RegistersHeader(payload) ==>
              var t := RegisterTypeFromCode(payload[2]).value;
              var start := ReplyWord(payload, 3);
              var length := ReplyWord(payload, 5);
              var count := |RegistersOf(conn.registers, device.id, t)|;
              var scan := ScanTypes(payload, AddressesOf(conn.registers, device.id, t), start, |payload|, EntriesStart);
              (count == 0 ==> !raised && device.View() == old(device.View()) &&
                              forall x :: x in conn.registers ==> x.dataType == old(x.dataType) && x.size == old(x.size)) &&
              (count > 0 ==>
                raised == scan.raised &&
                (forall x :: x in conn.registers ==>
                  (x.dataType, x.size) == Typed(scan.writes, conn.registers, device.id, t, x, old(x.dataType), old(x.size))) &&
                device.View() == if raised then old(device.View())
                                 else RegistersStructuredView(old(device.View()), t, start, length, count,
                                                              |RegistersOf(conn.registers, device.id, AO)|))
  {
    if |payload| < 3 {
      return true;
    }
    var code := RegisterTypeFromCode(payload[2]);
    if code.None? {
      return false;
    }
    if |payload| < 7 {
      return true;
    }
    var start := Word(payload[3], payload[4]);
    var length := Word(payload[5], payload[6]);
    raised := TypedRegistersReply(conn, device, code.value, start, length, |payload|, payload);
  }

  /**
   * `__registers_structure_receiver` after the device lookup, with the
   * address loop bounded by the window the reply announces.
   */
  method RegistersReply(conn: Connector, device: Device, payload: seq<Byte>) returns (raised: bool)
    modifies device, conn.registers`dataType, conn.registers`size
    ensures !RegistersHeader(payload) ==>
              raised == (|payload| < 3 || RegisterTypeFromCode(payload[2]).Some?) &&
              device.View() == old(device.View()) &&
              forall x :: x in conn.registers ==> x.dataType == old(x.dataType) && x.size == old(x.size)
    ensures RegistersHeader(payload) ==>
              var t := RegisterTypeFromCode(payload[2]).value;
              var start := ReplyWord(payload, 3);
              var length := ReplyWord(payload, 5);
              var count := |RegistersOf(conn.registers, device.id, t)|;
              var scan := ScanTypes(payload, AddressesOf(conn.registers, device.id, t), start, start + length, EntriesStart);
              (count == 0 ==> !raised && device.View() == old(device.View()) &&
                              forall x :: x in conn.registers ==> x.dataType == old(x.dataType) && x.size == old(x.size)) &&
              (count > 0 ==>
                raised == scan.raised &&
                (forall x :: x in conn.registers ==>
                  (x.dataType, x.size) == Typed(scan.writes, conn.registers, device.id, t, x, old(x.dataType), old(x.size))) &&
                device.View() == if raised then old(device.View())
                                 else RegistersStructuredView(old(device.View()), t, start, length, count,
                                                              |RegistersOf(conn.registers, device.id, AO)|))
  {
    if |payload| < 3 {
      return true;
    }
    var code := RegisterTypeFromCode(payload[2]);
    if code.None? {
      return false;
    }
    if |payload| < 7 {
      return true;
    }
    var start := Word(payload[3], payload[4]);
    var length := Word(payload[5], payload[6]);
    raised := TypedRegistersReply(conn, device, code.value, start, length, start + length, payload);
  }

  // ---------------------------------------------------------------------------
  // Properties of the registers replies

  /** A reply holding one byte per address from `i` to `end` never raises. */
  lemma {:induction false} WindowScanNeverRaises(p: seq<Byte>, present: set<int>, i: int, end: int, bp: nat)
    requires bp + (end - i) <= |p|
    ensures !ScanTypes(p, present, i, end, bp).raised
    decreases end - i
  {
    if i < end {
      WindowScanNeverRaises(p, present, i + 1, end, bp + 1);
    }
  }

  /**
   * Bounded by the window, a reply that holds one byte per address of the
   * window never raises, and the register at each address of the window
   * takes the data type its byte names (when the byte names one).
   */
  lemma {:induction false} WindowScanStoresEachByte(p: seq<Byte>, present: set<int>, i: int, end: int, bp: nat, a: int)
    requires bp + (end - i) <= |p|
    requires i <= a < end && a in present
    ensures !ScanTypes(p, present, i, end, bp).raised
    ensures WrittenType(ScanTypes(p, present, i, end, bp).writes, a) == DataTypeFromCode(p[bp + (a - i)])
    decreases end - i
  {
    WindowScanNeverRaises(p, present, i, end, bp);
    var h := StepTypes(p, present, i, bp);
    var rest := ScanTypes(p, present, i + 1, end, bp + 1);
    WrittenTypeAppend(h.writes, rest.writes, a);
    if a == i {
      ScanTypesWrites(p, present, i + 1, end, bp + 1);
      WrittenTypeElsewhere(rest.writes, a);
      assert h.writes != [] ==> h.writes[..0] == [];
    } else {
      WindowScanStoresEachByte(p, present, i + 1, end, bp + 1, a);
    }
  }

  /**
   * The loop as written reads past the reply as soon as the device has more
   * registers than one reply describes: four analog registers, a window of
   * two at address 0, and a complete reply of ten bytes. The bounded loop
   * stores both data types and raises nothing.
   */
  lemma AsWrittenRaisesOnFirstWindow()
    ensures var p: seq<Byte> := [PacketCode(PairDevice), ResponseCode(RegistersStructure), RegisterTypeCode(AI),
                                 0, 0, 0, 2, DataTypeCode(UInt8), DataTypeCode(Int16), Terminator];
            var present := {0, 1, 2, 3};
            ScanTypes(p, present, 0, |p|, EntriesStart).raised &&
            ScanTypes(p, present, 0, Word(p[5], p[6]), EntriesStart) ==
              TypeScan([TypeWrite(0, UInt8), TypeWrite(1, Int16)], false)
  {
    var p: seq<Byte> := [PacketCode(PairDevice), ResponseCode(RegistersStructure), RegisterTypeCode(AI),
                         0, 0, 0, 2, DataTypeCode(UInt8), DataTypeCode(Int16), Terminator];
    var present := {0, 1, 2, 3};
    assert DataTypeFromCode(p[9]).None?;
    assert ScanTypes(p, present, 3, |p|, 10).raised;
    assert ScanTypes(p, present, 2, |p|, 9).raised;
    assert ScanTypes(p, present, 2, 2, 9) == TypeScan([], false);
  }

  /**
   * While registers are left, the reading pointer moves past the window just read;
   * after the last AI window come the AO registers from address 0, and
   * after the last window of all the setting sizes.
   */
  lemma RegistersStructuredNext(v: DeviceView, t: RegisterType, start: int, length: int, count: nat, ao: nat)
    ensures var w := RegistersStructuredView(v, t, start, length, count, ao);
            w.waitingForPacket.None? && w.attempts == 0 &&
            (count > start + length ==> w.readingRegisterAddress == Some(start + length) &&
                                        w.readingRegisterType == Some(t) && w.pairingCmd == v.pairingCmd) &&
            (count <= start + length && t == AI && ao > 0 ==>
               w.readingRegisterAddress == Some(0) && w.readingRegisterType == Some(AO)) &&
            (count <= start + length && (t != AI || ao == 0) ==> w.pairingCmd == Some(ProvideSettingsSize))
  {
  }

  // ---------------------------------------------------------------------------
  // Settings

  /** What one entry of a settings reply stores: data type, name and, for a register setting, the register. */
  datatype SettingWrite = SettingWrite(address: int, dataType: DataType, name: string, link: Option<(int, RegisterType)>)

  /** How reading one entry goes. */
  datatype Entry = EntryRaises | EntrySkipped | EntryRead(dataType: DataType, name: string, link: Option<(int, RegisterType)>)

  /**
   * One entry at byte `bp` for a setting that exists. A device setting is a
   * data-type byte and its name; a register setting is the register's
   * address (two bytes), its type, the data type and the name. An unknown
   * type, data type or register skips the entry; a byte read past the
   * payload raises.
   */
  function ReadEntry(p: seq<Byte>, kind: SettingType, rs: seq<Register>, deviceId: Uuid, bp: nat): Entry
  {
    if kind == DeviceSetting then
      if bp >= |p| then EntryRaises
      else match DataTypeFromCode(p[bp])
        case None => EntrySkipped
        case Some(t) => EntryRead(t, FbBusHelpers.TextAt(p, bp + 1), None)
    else
      if bp + 2 >= |p| then EntryRaises
      else match RegisterTypeFromCode(p[bp + 2])
        case None => EntrySkipped
        case Some(rt) =>
          var a := Word(p[bp], p[bp + 1]);
          if RegisterAt(rs, deviceId, rt, a).None? then EntrySkipped
          else if bp + 3 >= |p| then EntryRaises
          else match DataTypeFromCode(p[bp + 3])
            case None => EntrySkipped
            case Some(t) => EntryRead(t, FbBusHelpers.TextAt(p, bp + 4), Some((a, rt)))
  }

  /** The entry that starts at each byte of a reply, from byte `b` on. */
  function EntriesFrom(p: seq<Byte>, kind: SettingType, rs: seq<Register>, deviceId: Uuid, b: nat): seq<Entry>
    decreases |p| - b
  {
    if b >= |p| then [] else [ReadEntry(p, kind, rs, deviceId, b)] + EntriesFrom(p, kind, rs, deviceId, b + 1)
  }

  /** The entry that starts at each byte of a reply. */
  function EntryTable(p: seq<Byte>, kind: SettingType, rs: seq<Register>, deviceId: Uuid): seq<Entry>
  {
    EntriesFrom(p, kind, rs, deviceId, 0)
  }

  /** The entry at byte `bp`; past the end of the reply, reading it raises. */
  function EntryAt(table: seq<Entry>, bp: nat): Entry
  {
    if bp < |table| then table[bp] else EntryRaises
  }

  lemma {:induction false} EntriesFromReads(p: seq<Byte>, kind: SettingType, rs: seq<Register>, deviceId: Uuid,
                                            b: nat, bp: nat)
    requires b <= |p|
    ensures |EntriesFrom(p, kind, rs, deviceId, b)| == |p| - b
    ensures b <= bp < |p| ==> EntriesFrom(p, kind, rs, deviceId, b)[bp - b] == ReadEntry(p, kind, rs, deviceId, bp)
    decreases |p| - b
  {
    if b < |p| {
      EntriesFromReads(p, kind, rs, deviceId, b + 1, bp);
      var tail := EntriesFrom(p, kind, rs, deviceId, b + 1);
      assert EntriesFrom(p, kind, rs, deviceId, b) == [ReadEntry(p, kind, rs, deviceId, b)] + tail;
      if b < bp < |p| {
        assert EntriesFrom(p, kind, rs, deviceId, b)[bp - b] == tail[bp - (b + 1)];
      }
    }
  }

  /** The table holds every entry the reply can be read as: past its end, an entry raises. */
  lemma EntryTableReads(p: seq<Byte>, kind: SettingType, rs: seq<Register>, deviceId: Uuid, bp: nat)
    ensures EntryAt(EntryTable(p, kind, rs, deviceId), bp) == ReadEntry(p, kind, rs, deviceId, bp)
  {
    EntriesFromReads(p, kind, rs, deviceId, 0, bp);
  }

  /** The entry at address `i`: read when a setting exists there, else skipped. */
  function StepEntry(table: seq<Entry>, present: set<int>, i: int, bp: nat): Entry
  {
    if i in present then EntryAt(table, bp) else EntrySkipped
  }

  /** What an entry stores at address `i`. */
  function EntryWrites(e: Entry, i: int): (ws: seq<SettingWrite>)
    ensures |ws| <= 1 && forall k :: 0 <= k < |ws| ==> ws[k].address == i
  {
    if e.EntryRead? then [SettingWrite(i, e.dataType, e.name, e.link)] else []
  }

  /** What a settings reply stores, how many entries were counted, and whether it raised. */
  datatype SettingScan = SettingScan(writes: seq<SettingWrite>, counter: nat, raised: bool)

  /**
   * The loop of `__settings_structure_receiver` from address `i`: read the
   * entry when a setting exists there, count it, stop once `readLength`
   * were counted, else move past the next space byte (to byte 0 when there
   * is none).
   */
  function ScanSettings(p: seq<Byte>, table: seq<Entry>, present: set<int>,
                        i: int, end: int, bp: nat, counter: nat, readLength: int): SettingScan
    decreases end - i
  {
    if i >= end then SettingScan([], counter, false)
    else
      var e := StepEntry(table, present, i, bp);
      if e.EntryRaises? then SettingScan([], counter, true)
      else if counter + 1 == readLength then SettingScan(EntryWrites(e, i), counter + 1, false)
      else
        var rest := ScanSettings(p, table, present, i + 1, end, FbBusHelpers.SpaceFrom(p, bp) + 1, counter + 1, readLength);
        SettingScan(EntryWrites(e, i) + rest.writes, rest.counter, rest.raised)
  }

  /** The addresses at which the device has a setting in a registry. */
  function SettingAddresses(ss: seq<Setting>, deviceId: Uuid): (s: set<int>)
    ensures forall a :: a in s <==> SettingAt(ss, deviceId, a).Some?
  {
    set x | x in ss && x.deviceId == deviceId :: x.address
  }

  /** The entry written at an address, if any (the last such write). */
  function WrittenEntry(ws: seq<SettingWrite>, a: int): Option<SettingWrite>
  {
    if ws == [] then None
    else if ws[|ws| - 1].address == a then Some(ws[|ws| - 1])
    else WrittenEntry(ws[..|ws| - 1], a)
  }

  /** A setting after one entry: `set_register` when linked, `set_data_type`, `set_name`. */
  function Stored(w: SettingWrite, v: SettingView): SettingView
  {
    var linked := if w.link.Some? then v.(registerAddress := Some(w.link.value.0), registerType := Some(w.link.value.1))
                  else v;
    linked.(dataType := w.dataType, size := SizeAfter(w.dataType, v.size), name := Some(w.name))
  }

  /** Setting `x` after the writes, from `v`: only the setting the lookup at its address finds is written. */
  function SettingAfter(ws: seq<SettingWrite>, ss: seq<Setting>, deviceId: Uuid, x: Setting, v: SettingView): SettingView
  {
    var w := WrittenEntry(ws, x.address);
    if SettingAt(ss, deviceId, x.address) == Some(x) && w.Some? then Stored(w.value, v) else v
  }

  /** What the device does after a settings reply it read to the end. */
  function SettingsStructuredView(v: DeviceView, kind: SettingType, start: int, counter: nat,
                                  count: nat, registerCount: nat): DeviceView
  {
    var w := ResetCommunication(v);
    if count > start + counter then w.(readingSettingAddress := Some(start + counter), readingSettingType := Some(kind))
    else if kind == DeviceSetting && registerCount > 0 then
      w.(readingSettingAddress := Some(0), readingSettingType := Some(RegisterSetting))
    else w.(pairingCmd := Some(Finished))
  }

  /** Later writes win. */
  lemma {:induction false} WrittenEntryAppend(ws1: seq<SettingWrite>, ws2: seq<SettingWrite>, a: int)
    ensures WrittenEntry(ws1 + ws2, a) == if WrittenEntry(ws2, a).Some? then WrittenEntry(ws2, a) else WrittenEntry(ws1, a)
    decreases |ws2|
  {
    if ws2 == [] {
      assert ws1 + ws2 == ws1;
    } else {
      assert (ws1 + ws2)[..|ws1 + ws2| - 1] == ws1 + ws2[..|ws2| - 1];
      WrittenEntryAppend(ws1, ws2[..|ws2| - 1], a);
    }
  }

  /** Writes at addresses other than `a` write nothing at `a`. */
  lemma {:induction false} WrittenEntryElsewhere(ws: seq<SettingWrite>, a: int)
    requires forall k :: 0 <= k < |ws| ==> ws[k].address != a
    ensures WrittenEntry(ws, a).None?
  {
    if ws != [] {
      WrittenEntryElsewhere(ws[..|ws| - 1], a);
    }
  }

  /**
   * One entry as the receiver reads it, for the setting `x` found at its
   * address: what `ReadEntry` says is stored on `x`, and nothing else
   * changes.
   */
  method StoreEntry(conn: Connector, device: Device, kind: SettingType, x: Setting, bp: nat, payload: seq<Byte>)
    returns (e: Entry)
    modifies x
    ensures e == ReadEntry(payload, kind, conn.registers, device.id, bp)
    ensures e.EntryRead? ==> x.View() == Stored(SettingWrite(x.address, e.dataType, e.name, e.link), old(x.View()))
    ensures !e.EntryRead? ==> x.View() == old(x.View())
  {
    if kind == DeviceSetting {
      if bp >= |payload| {
        return EntryRaises;
      }
      var code := DataTypeFromCode(payload[bp]);
      if code.None? {
        return EntrySkipped;
      }
      var name := FbBusHelpers.ExtractTextFromPayload(payload, bp + 1);
      x.SetDataType(code.value);
      x.SetName(name);
      return EntryRead(code.value, name, None);
    }
    if bp + 2 >= |payload| {
      return EntryRaises;
    }
    var rt := RegisterTypeFromCode(payload[bp + 2]);
    if rt.None? {
      return EntrySkipped;
    }
    var a := Word(payload[bp], payload[bp + 1]);
    var register := conn.GetRegisterByAddress(device, rt.value, a);
    if register.None? {
      return EntrySkipped;
    }
    if bp + 3 >= |payload| {
      return EntryRaises;
    }
    var code := DataTypeFromCode(payload[bp + 3]);
    if code.None? {
      return EntrySkipped;
    }
    var name := FbBusHelpers.ExtractTextFromPayload(payload, bp + 4);
    x.SetRegister(register.value.address, register.value.registerType);
    x.SetDataType(code.value);
    x.SetName(name);
    return EntryRead(code.value, name, Some((a, rt.value)));
  }

  /** The views of a registry's settings. */
  function ViewsOf(ss: seq<Setting>): (m: map<Setting, SettingView>)
    reads ss
    ensures forall x :: x in ss ==> x in m && m[x] == x.View()
  {
    map x | x in ss :: x.View()
  }

  /** Every setting of `ss` holds what the writes make of its view in `before`. */
  ghost predicate SettingsFrom(ss: seq<Setting>, deviceId: Uuid, ws: seq<SettingWrite>, before: map<Setting, SettingView>)
    reads ss
  {
    forall x :: x in ss && x in before ==> x.View() == SettingAfter(ws, ss, deviceId, x, before[x])
  }

  /** One address of the loop as the receiver runs it: look the setting up and read its entry. */
  method StoreSettingAt(conn: Connector, device: Device, kind: SettingType, i: int, bp: nat, payload: seq<Byte>)
    returns (e: Entry)
    modifies conn.SettingsRegistry(kind)
    ensures unchanged(conn)
    ensures e == StepEntry(EntryTable(payload, kind, conn.registers, device.id),
                           SettingAddresses(conn.SettingsRegistry(kind), device.id), i, bp)
    ensures forall x :: x in conn.SettingsRegistry(kind) ==>
              x.View() == SettingAfter(EntryWrites(e, i), conn.SettingsRegistry(kind), device.id, x, old(x.View()))
  {
    var setting := conn.GetSettingByAddress(device, kind, i);
    if setting.None? {
      return EntrySkipped;
    }
    e := StoreEntry(conn, device, kind, setting.value, bp, payload);
    EntryTableReads(payload, kind, conn.registers, device.id, bp);
    ghost var ss := conn.SettingsRegistry(kind);
    forall x: Setting | x in ss
      ensures x.View() == SettingAfter(EntryWrites(e, i), ss, device.id, x, old(x.View()))
    {
      if x == setting.value {
        if e.EntryRead? {
          assert EntryWrites(e, i)[..0] == [];
        }
      } else if x.address == i {
        assert SettingAt(ss, device.id, x.address) != Some(x);
      } else {
        WrittenEntryElsewhere(EntryWrites(e, i), x.address);
      }
    }
  }

  /** One more address of the loop keeps `SettingsFrom`. */
  lemma SettingsStep(ss: seq<Setting>, deviceId: Uuid, done: seq<SettingWrite>, h: seq<SettingWrite>, i: int,
                     before: map<Setting, SettingView>, mid: map<Setting, SettingView>)
    requires forall k :: 0 <= k < |done| ==> done[k].address < i
    requires forall k :: 0 <= k < |h| ==> h[k].address == i
    requires forall x :: x in ss ==> x in mid
    requires forall x :: x in ss && x in before ==> mid[x] == SettingAfter(done, ss, deviceId, x, before[x])
    requires forall x :: x in ss ==> x.View() == SettingAfter(h, ss, deviceId, x, mid[x])
    ensures SettingsFrom(ss, deviceId, done + h, before)
  {
    forall x | x in ss && x in before
      ensures x.View() == SettingAfter(done + h, ss, deviceId, x, before[x])
    {
      WrittenEntryAppend(done, h, x.address);
      if x.address == i {
        WrittenEntryElsewhere(done, i);
      } else {
        WrittenEntryElsewhere(h, x.address);
      }
    }
  }

  /** The loop's account of the scan moves past address `i`. */
  lemma SettingsAdvance(p: seq<Byte>, table: seq<Entry>, present: set<int>,
                        i: int, end: int, bp: nat, counter: nat, readLength: int,
                        done: seq<SettingWrite>, all: SettingScan, e: Entry)
    requires i < end && e == StepEntry(table, present, i, bp)
    requires SettingsAccount(p, table, present, i, end, bp, counter, readLength, done) == all
    ensures e.EntryRaises? ==> all.raised && all.writes == done + EntryWrites(e, i) && all.counter == counter
    ensures !e.EntryRaises? && counter + 1 == readLength ==>
              !all.raised && all.writes == done + EntryWrites(e, i) && all.counter == counter + 1
    ensures !e.EntryRaises? && counter + 1 != readLength ==>
              SettingsAccount(p, table, present, i + 1, end, FbBusHelpers.SpaceFrom(p, bp) + 1, counter + 1, readLength,
                              done + EntryWrites(e, i)) == all
  {
    var h := EntryWrites(e, i);
    if e.EntryRaises? {
      assert h == [] && done + [] == done;
    } else if counter + 1 != readLength {
      var r := ScanSettings(p, table, present, i + 1, end,
                            FbBusHelpers.SpaceFrom(p, bp) + 1, counter + 1, readLength);
      assert done + (h + r.writes) == (done + h) + r.writes;
    } else {
      assert h + [] == h;
    }
  }

  /** The whole settings scan as the loop accounts for it at address `i`: `done` stored, the rest of it to come. */
  ghost function SettingsAccount(p: seq<Byte>, table: seq<Entry>, present: set<int>, i: int, end: int, bp: nat,
                                 counter: nat, readLength: int, done: seq<SettingWrite>): SettingScan
  {
    var rest := ScanSettings(p, table, present, i, end, bp, counter, readLength);
    SettingScan(done + rest.writes, rest.counter, rest.raised)
  }

  /**
   * One address of the loop with its account: the entry is read and stored,
   * the byte pointer of the next entry (past the next space) is found, and
   * the scan moves past it.
   */
  method ScanStep(conn: Connector, device: Device, kind: SettingType, i: int, end: int, bp: nat, counter: nat,
                  readLength: int, payload: seq<Byte>, ghost table: seq<Entry>, ghost present: set<int>,
                  ghost before: map<Setting, SettingView>, ghost done: seq<SettingWrite>, ghost all: SettingScan)
    returns (e: Entry, ghost next: seq<SettingWrite>, nextBp: nat)
    requires i < end
    requires table == EntryTable(payload, kind, conn.registers, device.id)
    requires present == SettingAddresses(conn.SettingsRegistry(kind), device.id)
    requires SettingsAccount(payload, table, present, i, end, bp, counter, readLength, done) == all
    requires forall k :: 0 <= k < |done| ==> done[k].address < i
    requires SettingsFrom(conn.SettingsRegistry(kind), device.id, done, before)
    modifies conn.SettingsRegistry(kind)
    ensures unchanged(conn)
    ensures SettingsFrom(conn.SettingsRegistry(kind), device.id, next, before)
    ensures e.EntryRaises? ==> all.raised && all.writes == next && all.counter == counter
    ensures !e.EntryRaises? && counter + 1 == readLength ==>
              !all.raised && all.writes == next && all.counter == counter + 1
    ensures nextBp == FbBusHelpers.SpaceFrom(payload, bp) + 1
    ensures !e.EntryRaises? && counter + 1 != readLength ==>
              SettingsAccount(payload, table, present, i + 1, end, nextBp, counter + 1, readLength, next) == all &&
              forall k :: 0 <= k < |next| ==> next[k].address < i + 1
  {
    ghost var ss := conn.SettingsRegistry(kind);
    ghost var mid := ViewsOf(ss);
    e := StoreSettingAt(conn, device, kind, i, bp, payload);
    SettingsAdvance(payload, table, present, i, end, bp, counter, readLength, done, all, e);
    SettingsStep(ss, device.id, done, EntryWrites(e, i), i, before, mid);
    next := done + EntryWrites(e, i);
    var space := FbBusHelpers.FindSpaceInPayload(payload, bp);
    nextBp := space + 1;
  }

  /**
   * The loop of `__settings_structure_receiver` over addresses `start` up to
   * `end`. `counter` is the number of entries it counted; `raised` is the
   * IndexError of a byte read past the payload.
   */
  method StoreSettings(conn: Connector, device: Device, kind: SettingType, start: nat, end: int,
                       readLength: int, payload: seq<Byte>) returns (counter: nat, raised: bool)
    modifies conn.SettingsRegistry(kind)
    ensures var ss := conn.SettingsRegistry(kind);
            var scan := ScanSettings(payload, EntryTable(payload, kind, conn.registers, device.id),
                                     SettingAddresses(ss, device.id), start, end, EntriesStart, 0, readLength);
            counter == scan.counter && raised == scan.raised &&
            SettingsFrom(ss, device.id, scan.writes, old(ViewsOf(ss)))
  {
    ghost var ss := conn.SettingsRegistry(kind);
    ghost var before := ViewsOf(ss);
    ghost var present := SettingAddresses(ss, device.id);
    ghost var table := EntryTable(payload, kind, conn.registers, device.id);
    ghost var all := ScanSettings(payload, table, present, start, end, EntriesStart, 0, readLength);
    ghost var done: seq<SettingWrite> := [];
    var i := start;
    var bp: nat := EntriesStart;
    counter := 0;
    assert [] + all.writes == all.writes;
    while i < end
      invariant unchanged(conn)
      invariant SettingsAccount(payload, table, present, i, end, bp, counter, readLength, done) == all
      invariant forall k :: 0 <= k < |done| ==> done[k].address < i
      invariant SettingsFrom(ss, device.id, done, before)
      decreases end - i
    {
      var e;
      var nextBp: nat;
      e, done, nextBp := ScanStep(conn, device, kind, i, end, bp, counter, readLength, payload, table, present, before, done, all);
      if e.EntryRaises? {
        return counter, true;
      }
      if counter + 1 == readLength {
        return counter + 1, false;
      }
      counter := counter + 1;
      bp := nextBp;
      i := i + 1;
    }
    assert done + [] == done;
    return counter, false;
  }

  /** The reading pointer after a settings reply read to the end (the tail of the receiver). */
  method AdvanceSettings(conn: Connector, device: Device, kind: SettingType, start: int, counter: nat, count: nat)
    modifies device
    ensures device.View() == SettingsStructuredView(old(device.View()), kind, start, counter, count,
                                                    |SettingsOf(conn.registerSettings, device.id)|)
  {
    device.ResetCommunicationState();
    if count > start + counter {
      device.SetReadingSetting(start + counter, kind);
    } else {
      var registerSettings := conn.GetSettingsByType(device, RegisterSetting);
      if kind == DeviceSetting && |registerSettings| > 0 {
        device.SetReadingSetting(0, RegisterSetting);
      } else {
        device.SetPairingCmd(Some(Finished));
      }
    }
  }

  /** A payload long enough for its header and naming a settings type. */
  predicate SettingsHeader(payload: seq<Byte>)
  {
    |payload| >= 7 && SettingTypeFromCode(payload[2]).Some?
  }

  /**
   * `__settings_structure_receiver` after the device lookup. A payload too
   * short for its header raises before anything changes; a type the bus
   * does not know, or one the device has no settings of, is ignored. The
   * loop runs up to the length of the payload and stops once it counted
   * as many entries as the reply announces.
   */
  method SettingsReply(conn: Connector, device: Device, payload: seq<Byte>) returns (raised: bool)
    modifies device, conn.deviceSettings, conn.registerSettings
    ensures !SettingsHeader(payload) ==>
              raised == (|payload| < 3 || SettingTypeFromCode(payload[2]).Some?) &&
              device.View() == old(device.View()) &&
              (forall x :: x in conn.deviceSettings ==> x.View() == old(x.View())) &&
              (forall x :: x in conn.registerSettings ==> x.View() == old(x.View()))
    ensures SettingsHeader(payload) ==>
              var kind := SettingTypeFromCode(payload[2]).value;
              var ss := conn.SettingsRegistry(kind);
              var start := ReplyWord(payload, 3);
              var count := |SettingsOf(ss, device.id)|;
              var scan := ScanSettings(payload, EntryTable(payload, kind, conn.registers, device.id),
                                       SettingAddresses(ss, device.id), start, |payload|, EntriesStart, 0,
                                       ReplyWord(payload, 5));
              (count == 0 ==> !raised && device.View() == old(device.View())) &&
              (count > 0 ==>
                raised == scan.raised &&
                SettingsFrom(ss, device.id, scan.writes, old(ViewsOf(ss))) &&
                device.View() == if raised then old(device.View())
                                 else SettingsStructuredView(old(device.View()), kind, start, scan.counter, count,
                                                             |SettingsOf(conn.registerSettings, device.id)|))
  {
    if |payload| < 3 {
      return true;
    }
    var code := SettingTypeFromCode(payload[2]);
    if code.None? {
      return false;
    }
    if |payload| < 7 {
      return true;
    }
    var kind := code.value;
    var start := Word(payload[3], payload[4]);
    var readLength := Word(payload[5], payload[6]);
    var settings := conn.GetSettingsByType(device, kind);
    if |settings| == 0 {
      return false;
    }
    var counter;
    counter, raised := StoreSettings(conn, device, kind, start, |payload|, readLength, payload);
    if !raised {
      AdvanceSettings(conn, device, kind, start, counter, |settings|);
    }
  }

  /**
   * While settings are left, the reading pointer moves past the entries just
   * counted; after the last device settings come the register settings
   * from address 0, and after the last of all pairing is finished.
   */
  lemma SettingsStructuredNext(v: DeviceView, kind: SettingType, start: int, counter: nat, count: nat, rc: nat)
    ensures var w := SettingsStructuredView(v, kind, start, counter, count, rc);
            w.waitingForPacket.None? && w.attempts == 0 &&
            (count > start + counter ==> w.readingSettingAddress == Some(start + counter) &&
                                         w.readingSettingType == Some(kind) && w.pairingCmd == v.pairingCmd) &&
            (count <= start + counter && kind == DeviceSetting && rc > 0 ==>
               w.readingSettingAddress == Some(0) && w.readingSettingType == Some(RegisterSetting)) &&
            (count <= start + counter && (kind == RegisterSetting || rc == 0) ==> w.pairingCmd == Some(Finished))
  {
  }
}
