// Byte and text helpers of the FastyBird bus connector
// (miniserver_gateway/connectors/fb_bus/utilities/helpers.py): reading
// space- or terminator-delimited text out of a payload, mapping the bus'
// device states and data types onto the gateway's, and packing register
// values into four little-endian bytes.

module FbBusHelpers {
  import opened Common
  import opened FbBusTypes
  import GT = GatewayTypes

  // ---------------------------------------------------------------------------
  // Text inside payloads

  /** A byte that ends a text field: the data space 0x20 or the terminator 0x00. */
  predicate IsTextStop(b: int)
  {
    b == DataSpace || b == Terminator
  }

  /** The first index at or after `start` that ends the text field, or |p| when none does. */
  function TextEnd(p: seq<Byte>, start: nat): (k: nat)
    requires start <= |p|
    ensures start <= k <= |p|
    ensures k < |p| ==> IsTextStop(p[k])
    ensures forall j :: start <= j < k ==> !IsTextStop(p[j])
    decreases |p| - start
  {
    if start == |p| || IsTextStop(p[start]) then start else TextEnd(p, start + 1)
  }

  /** `chr` of every byte. */
  function CharsOf(bs: seq<Byte>): (s: string)
    ensures |s| == |bs|
  {
    seq(|bs|, i requires 0 <= i < |bs| => bs[i] as char)
  }

  /** The text field of `p` that starts at `start`; empty when `start` is past the end. */
  function TextAt(p: seq<Byte>, start: nat): string
  {
    if start <= |p| then CharsOf(p[start..TextEnd(p, start)]) else ""
  }

  /** The bytes a device sends a text as: one byte per character, then the terminator. */
  function TextField(s: string): (bs: seq<int>)
    ensures |bs| == |s| + 1
  {
    seq(|s|, i requires 0 <= i < |s| => s[i] as int) + [Terminator]
  }

  /** A text field written by `TextField` reads back as the same text, whatever surrounds it. */
  lemma TextFieldRoundTrip(prefix: seq<Byte>, s: string, suffix: seq<Byte>, p: seq<Byte>)
    requires forall c :: c in s ==> 0 < c as int < 256 && c != ' '
    requires p == prefix + TextField(s) + suffix
    ensures TextEnd(p, |prefix|) == |prefix| + |s|
    ensures TextAt(p, |prefix|) == s
  {
    var k := |prefix| + |s|;
    forall j | |prefix| <= j < k
      ensures !IsTextStop(p[j])
    {
      assert p[j] == s[j - |prefix|] as int;
      assert s[j - |prefix|] in s;
    }
    assert p[k] == Terminator;
    TextEndIsFirstStop(p, |prefix|, k);
    assert p[|prefix|..k] == seq(|s|, i requires 0 <= i < |s| => s[i] as int);
  }

  /** `Helpers.extract_text_from_payload`: the characters from `start` up to the first space or terminator. */
  method ExtractTextFromPayload(payload: seq<Byte>, start: nat) returns (text: string)
    ensures text == TextAt(payload, start)
    ensures start <= |payload| ==> text == CharsOf(payload[start..TextEnd(payload, start)])
    ensures start > |payload| ==> text == ""
    ensures |text| <= |payload| - start || text == ""
    ensures forall c :: c in text ==> c != ' ' && c != '\0'
  {
    text := "";
    if start > |payload| {
      return;
    }
    var i := start;
    while i < |payload|
      invariant start <= i <= |payload|
      invariant forall j :: start <= j < i ==> !IsTextStop(payload[j])
      invariant text == CharsOf(payload[start..i])
    {
      if payload[i] == DataSpace || payload[i] == Terminator {
        break;
      }
      text := text + [payload[i] as char];
      i := i + 1;
    }
    TextEndIsFirstStop(payload, start, i);
  }

  /** Any index that ends the scan (a stop byte or the end) with no stop before it is `TextEnd`. */
  lemma {:induction false} TextEndIsFirstStop(p: seq<Byte>, start: nat, k: nat)
    requires start <= k <= |p|
    requires k < |p| ==> IsTextStop(p[k])
    requires forall j :: start <= j < k ==> !IsTextStop(p[j])
    ensures TextEnd(p, start) == k
    decreases k - start
  {
    if start < k {
      TextEndIsFirstStop(p, start + 1, k);
    }
  }

  /** The first index at or after `start` holding the data space, or -1 when there is none. */
  function SpaceFrom(p: seq<Byte>, start: nat): (r: int)
    ensures r == -1 || (start <= r < |p| && p[r] == DataSpace)
    ensures forall j :: start <= j < |p| && (r == -1 || j < r) ==> p[j] != DataSpace
    decreases |p| - start
  {
    if start >= |p| then -1
    else if p[start] == DataSpace then start
    else SpaceFrom(p, start + 1)
  }

  /** `Helpers.find_space_in_payload`: the least index at or after `start` holding 0x20, or -1. */
  method FindSpaceInPayload(payload: seq<Byte>, start: nat) returns (r: int)
    ensures r == SpaceFrom(payload, start)
    ensures r == -1 <==> forall j :: start <= j < |payload| ==> payload[j] != DataSpace
    ensures r != -1 ==> start <= r < |payload| && payload[r] == DataSpace
    ensures r != -1 ==> forall j :: start <= j < r ==> payload[j] != DataSpace
  {
    var i := start;
    while i < |payload|
      invariant start <= i
      invariant forall j :: start <= j < i && j < |payload| ==> payload[j] != DataSpace
    {
      if payload[i] == DataSpace {
        return i;
      }
      i := i + 1;
    }
    return -1;
  }

  // ---------------------------------------------------------------------------
  // Device states

  /** `Helpers.transform_state_for_gateway`. */
  function TransformStateForGateway(received: int): (s: GT.DeviceState)
    ensures s == GT.Running <==> received == 0x01
    ensures s == GT.Stopped <==> received == 0x02
    ensures s != GT.Running && s != GT.Stopped ==> s == GT.Unknown
  {
    if received == DeviceStatePayloadCode(Running) then GT.Running
    else if received == DeviceStatePayloadCode(Stopped) then GT.Stopped
    else GT.Unknown
  }

  // ---------------------------------------------------------------------------
  // Data types

  /** `DataTypeHelper.transform_for_gateway`; None for the types the gateway has no counterpart of. */
  function TransformForGateway(t: DataType): (r: Option<GT.DataType>)
    ensures r.None? <==> t in {Unknown, Time, Date, DateTime}
  {
    match t
    case Bool => Some(GT.Boolean)
    case Int8 => Some(GT.Char)
    case UInt8 => Some(GT.UChar)
    case Int16 => Some(GT.Short)
    case UInt16 => Some(GT.UShort)
    case Int32 => Some(GT.Int)
    case UInt32 => Some(GT.UInt)
    case Float32 => Some(GT.Float)
    case _ => None
  }

  /**
   * `DataTypeHelper.transform_for_device`; None where the source raises
   * InvalidStateException (string, enum, color or a missing data type).
   */
  function TransformForDevice(t: Option<GT.DataType>): (r: Option<DataType>)
    ensures r.None? <==> t.None? || t.value in {GT.String, GT.Enum, GT.Color}
  {
    match t
    case None => None
    case Some(g) =>
      match g
      case Boolean => Some(Bool)
      case Char => Some(Int8)
      case UChar => Some(UInt8)
      case Short => Some(Int16)
      case UShort => Some(UInt16)
      case Int => Some(Int32)
      case UInt => Some(UInt32)
      case Float => Some(Float32)
      case _ => None
  }

  /** On the eight supported pairs the two transformations are mutual inverses. */
  lemma DataTypeTransformsInverse(t: DataType, g: GT.DataType)
    ensures TransformForGateway(t) == Some(g) <==> TransformForDevice(Some(g)) == Some(t)
  {
  }

  // ---------------------------------------------------------------------------
  // Register values as four little-endian bytes

  const TwoTo31: int := 0x8000_0000
  const TwoTo32: int := 0x1_0000_0000

  /** `struct.unpack("<I", b)` of four bytes. */
  function UInt32FromLE(b: seq<Byte>): (v: int)
    requires |b| == 4
    ensures 0 <= v < TwoTo32
  {
    b[0] as int + 0x100 * b[1] as int + 0x1_0000 * b[2] as int + 0x100_0000 * b[3] as int
  }

  /** `struct.unpack("<i", b)` of four bytes: the two's-complement reading. */
  function Int32FromLE(b: seq<Byte>): (v: int)
    requires |b| == 4
    ensures -TwoTo31 <= v < TwoTo31
    ensures v < 0 <==> b[3] >= 0x80
  {
    var u := UInt32FromLE(b);
    if u >= TwoTo31 then u - TwoTo32 else u
  }

  /** `struct.pack("<I", v)`. */
  function UInt32ToLE(v: int): (b: seq<Byte>)
    requires 0 <= v < TwoTo32
    ensures |b| == 4
  {
    [v % 0x100, v / 0x100 % 0x100, v / 0x1_0000 % 0x100, v / 0x100_0000]
  }

  /** `struct.pack("<i", v)`: the two's-complement bytes. */
  function Int32ToLE(v: int): (b: seq<Byte>)
    requires -TwoTo31 <= v < TwoTo31
    ensures |b| == 4
  {
    UInt32ToLE(if v < 0 then v + TwoTo32 else v)
  }

  lemma UInt32RoundTrip(v: int)
    requires 0 <= v < TwoTo32
    ensures UInt32FromLE(UInt32ToLE(v)) == v
  {
    var r0 := v / 0x100;
    var r1 := r0 / 0x100;
    assert v == v % 0x100 + 0x100 * r0;
    assert r0 == r0 % 0x100 + 0x100 * r1;
    assert r1 == r1 % 0x100 + 0x100 * (r1 / 0x100);
    assert v / 0x1_0000 == r1;
    assert v / 0x100_0000 == r1 / 0x100;
  }

  lemma UInt32BytesRoundTrip(b: seq<Byte>)
    requires |b| == 4
    ensures UInt32ToLE(UInt32FromLE(b)) == b
  {
    var v := UInt32FromLE(b);
    var r1: int := b[2] as int + 0x100 * b[3] as int;
    var r0: int := b[1] as int + 0x100 * r1;
    assert v == b[0] as int + 0x100 * r0;
    assert v % 0x100 == b[0] && v / 0x100 == r0;
    assert r0 % 0x100 == b[1] && r0 / 0x100 == r1;
    assert r1 % 0x100 == b[2] && r1 / 0x100 == b[3];
    assert v / 0x1_0000 == r1;
    assert v / 0x100_0000 == b[3];
  }

  /** The integer `struct.pack` accepts for a value: ints, and bools as 0 or 1. */
  function IntegerOf(v: Value): (r: Option<int>)
    ensures r.Some? <==> v.VInt? || v.VBool?
  {
    match v
    case VInt(i) => Some(i)
    case VBool(b) => Some(if b then 1 else 0)
    case _ => None
  }

  datatype Unpacked =
    | Decoded(value: Value)
    | NotDecodable          // the data type has no byte layout: the source returns None
    | DecodeRaises          // struct.error: the byte list is not four bytes long

  /** `RegistersHelper.transform_value_from_bytes`. */
  function TransformValueFromBytes(t: DataType, bytes: seq<Byte>): (r: Unpacked)
    ensures r.NotDecodable? <==> t !in {Float32, UInt8, UInt16, UInt32, Int8, Int16, Int32}
    ensures r.DecodeRaises? <==> !r.NotDecodable? && |bytes| != 4
  {
    if t == Float32 then
      if |bytes| == 4 then Decoded(VFloat(bytes)) else DecodeRaises
    else if t in {UInt8, UInt16, UInt32} then
      if |bytes| == 4 then Decoded(VInt(UInt32FromLE(bytes))) else DecodeRaises
    else if t in {Int8, Int16, Int32} then
      if |bytes| == 4 then Decoded(VInt(Int32FromLE(bytes))) else DecodeRaises
    else NotDecodable
  }

  datatype Packed =
    | Encoded(bytes: seq<Byte>)
    | NotEncodable          // the data type has no byte layout: the source returns None
    | EncodeRaises          // struct.error: not an integer, or out of the format's range
    | FloatEncoded          // `struct.pack("<f", v)`: float rounding is not modelled

  predicate InPackRange(t: DataType, i: int)
  {
    if t in {UInt8, UInt16, UInt32} then 0 <= i < TwoTo32 else -TwoTo31 <= i < TwoTo31
  }

  /** `RegistersHelper.transform_value_to_bytes`. */
  function TransformValueToBytes(t: DataType, v: Value): (r: Packed)
    ensures r.FloatEncoded? <==> t == Float32
    ensures r.NotEncodable? <==> t !in {Float32, UInt8, UInt16, UInt32, Int8, Int16, Int32}
    ensures r.EncodeRaises? <==>
      t in {UInt8, UInt16, UInt32, Int8, Int16, Int32} &&
      (IntegerOf(v).None? || !InPackRange(t, IntegerOf(v).value))
    ensures r.Encoded? ==> |r.bytes| == 4
  {
    if t == Float32 then FloatEncoded
    else if t in {UInt8, UInt16, UInt32} then
      match IntegerOf(v)
      case Some(i) => if 0 <= i < TwoTo32 then Encoded(UInt32ToLE(i)) else EncodeRaises
      case None => EncodeRaises
    else if t in {Int8, Int16, Int32} then
      match IntegerOf(v)
      case Some(i) => if -TwoTo31 <= i < TwoTo31 then Encoded(Int32ToLE(i)) else EncodeRaises
      case None => EncodeRaises
    else NotEncodable
  }

  /** Every integer type reads back the integer it packed, over the whole range the format accepts. */
  lemma IntegerRoundTrip(t: DataType, i: int)
    requires t in {UInt8, UInt16, UInt32, Int8, Int16, Int32}
    requires InPackRange(t, i)
    ensures TransformValueToBytes(t, VInt(i)).Encoded?
    ensures TransformValueFromBytes(t, TransformValueToBytes(t, VInt(i)).bytes) == Decoded(VInt(i))
  {
    if t in {UInt8, UInt16, UInt32} {
      UInt32RoundTrip(i);
    } else {
      var u := if i < 0 then i + TwoTo32 else i;
      UInt32RoundTrip(u);
    }
  }

  /** Every four-byte word of an integer register packs back to the same bytes. */
  lemma BytesRoundTrip(t: DataType, b: seq<Byte>)
    requires t in {UInt8, UInt16, UInt32, Int8, Int16, Int32}
    requires |b| == 4
    ensures TransformValueFromBytes(t, b).Decoded?
    ensures TransformValueToBytes(t, TransformValueFromBytes(t, b).value) == Encoded(b)
  {
    UInt32BytesRoundTrip(b);
  }
}
