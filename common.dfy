// Shared vocabulary of the gateway model: optional values, the loosely typed
// values that travel between connectors, storage and exchanges, and the byte
// layouts (16-bit big-endian fields) used by the FastyBird bus packets.

module Common {

  datatype Option<T> = None | Some(value: T)

  /** A byte of a received payload. */
  type Byte = b: int | 0 <= b < 256

  /**
   * A property or attribute value as the gateway passes it around: Python's
   * None, bool, int, str and dict. A float read from the bus is kept as its
   * four little-endian IEEE-754 bytes; float arithmetic is not modelled.
   */
  datatype Value =
    | VNull
    | VBool(b: bool)
    | VInt(i: int)
    | VFloat(bits: seq<int>)
    | VText(s: string)
    | VObject(fields: map<string, Value>)

  /** Python's `==` on these values: a bool equals the int 0 or 1. */
  predicate PyEq(a: Value, b: Value)
  {
    match (a, b)
    case (VBool(x), VInt(y)) => y == (if x then 1 else 0)
    case (VInt(x), VBool(y)) => x == (if y then 1 else 0)
    case _ => a == b
  }

  /** Python truthiness of a value (`if value:`). */
  predicate Truthy(v: Value)
  {
    match v
    case VNull => false
    case VBool(b) => b
    case VInt(i) => i != 0
    case VFloat(bits) => bits != [0, 0, 0, 0] && bits != [0, 0, 0, 0x80]  // +0.0 and -0.0 are falsy
    case VText(s) => s != ""
    case VObject(m) => |m| != 0
  }

  /** `x >> 8`: Python shifts floor, which is Dafny's division by a positive divisor. */
  function HighByte(x: int): int
  {
    x / 256
  }

  /** `x & 0xFF`: the two's-complement low byte, which is Dafny's (never negative) remainder. */
  function LowByte(x: int): (b: Byte)
  {
    x % 256
  }

  /** A 16-bit big-endian word read back from two bytes: `(hi << 8) | lo`. */
  function Word(hi: Byte, lo: Byte): (w: nat)
    ensures w < 65536
  {
    hi * 256 + lo
  }

  /** A 16-bit field written as two bytes reads back as itself. */
  lemma WordRoundTrip(x: int)
    requires 0 <= x < 65536
    ensures 0 <= HighByte(x) < 256
    ensures Word(HighByte(x), LowByte(x)) == x
  {
  }
}
