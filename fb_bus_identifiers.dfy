// How the FastyBird bus connector names registers and settings on the gateway
// side and reads those names back (miniserver_gateway/connectors/fb_bus/fb_bus_connector.py):
// `propagate_register` and `propagate_setting` write "prefix-NN" with the
// register or setting address plus one, and `__load_devices` splits a stored
// identifier at "-" and takes the number minus one as the address.

module FbBusIdentifiers {
  import opened Common
  import opened FbBusTypes
  import FbBusHelpers
  import GT = GatewayTypes

  // ---------------------------------------------------------------------------
  // Decimal numerals

  predicate IsDigit(c: char)
  {
    '0' <= c <= '9'
  }

  function DigitChar(d: nat): (c: char)
    requires d < 10
    ensures IsDigit(c)
  {
    ('0' as int + d) as char
  }

  /** `str(n)` for n >= 0: the shortest decimal numeral. */
  function Decimal(n: nat): (s: string)
    ensures |s| >= 1 && forall i :: 0 <= i < |s| ==> IsDigit(s[i])
    ensures n >= 10 ==> s[0] != '0'
  {
    if n < 10 then [DigitChar(n)] else Decimal(n / 10) + [DigitChar(n % 10)]
  }

  /** `int(s)` of a string of decimal digits. */
  function DecimalValue(s: string): nat
    requires forall i :: 0 <= i < |s| ==> IsDigit(s[i])
  {
    if s == [] then 0
    else
      assert IsDigit(s[|s| - 1]);
      DecimalValue(s[..|s| - 1]) * 10 + (s[|s| - 1] as int - '0' as int)
  }

  /** `str(n)` for any integer. */
  function FormatInt(n: int): string
  {
    if n < 0 then "-" + Decimal(-n) else Decimal(n)
  }

  /** The format spec `{:0>2d}`: zeros on the left up to two characters. */
  function ZeroPad2(s: string): (r: string)
    ensures |r| >= 2 || |s| == 0
  {
    if |s| == 1 then "0" + s else s
  }

  // ---------------------------------------------------------------------------
  // Splitting

  /** The first index of a character. */
  function IndexOfChar(s: string, c: char): (r: Option<nat>)
    ensures r.Some? ==> r.value < |s| && s[r.value] == c && forall j :: 0 <= j < r.value ==> s[j] != c
    ensures r.None? <==> c !in s
  {
    if s == [] then None
    else if s[0] == c then Some(0)
    else match IndexOfChar(s[1..], c)
      case None => None
      case Some(k) => Some(k + 1)
  }

  /** `s.split(sep)` with a one-character separator. */
  function Split(s: string, sep: char): (parts: seq<string>)
    ensures |parts| >= 1
    decreases |s|
  {
    match IndexOfChar(s, sep)
    case None => [s]
    case Some(k) => [s[..k]] + Split(s[k + 1..], sep)
  }

  // ---------------------------------------------------------------------------
  // Identifiers written by `propagate_register` / `propagate_setting`

  function ChannelPrefix(t: RegisterType): string
  {
    match t
    case DI => "di"
    case DO => "do"
    case AI => "ai"
    case AO => "ao"
  }

  /** The channel identifier of a register: "di-01" for DI register 0. */
  function ChannelIdentifier(t: RegisterType, address: int): string
  {
    ChannelPrefix(t) + "-" + ZeroPad2(FormatInt(address + 1))
  }

  /** The property identifier of a register: "register-01" for register 0. */
  function PropertyIdentifier(address: int): string
  {
    "register-" + ZeroPad2(FormatInt(address + 1))
  }

  /** `"{}".format(name)`: a missing name prints as "None". */
  function NameText(name: Option<string>): string
  {
    match name
    case None => "None"
    case Some(n) => n
  }

  /** The configuration identifier of a setting: its name, "-", its address plus one (no padding). */
  function SettingIdentifier(name: Option<string>, address: int): string
  {
    NameText(name) + "-" + FormatInt(address + 1)
  }

  // ---------------------------------------------------------------------------
  // Identifiers read back by `__load_devices`

  /**
   * The identifier must split at "-" into exactly two parts, the second
   * numeric and positive; the result is the prefix and the address (the
   * number minus one). None is an identifier the loader skips.
   */
  function ParseIdentifier(identifier: string): (r: Option<(string, int)>)
    ensures r.Some? ==> r.value.1 >= 0 && '-' !in r.value.0
  {
    var parts := Split(identifier, '-');
    if |parts| != 2 then None
    else if parts[1] == [] || exists i :: 0 <= i < |parts[1]| && !IsDigit(parts[1][i]) then None
    else if DecimalValue(parts[1]) <= 0 then None
    else
      assert IndexOfChar(identifier, '-').Some?;
      Some((parts[0], DecimalValue(parts[1]) - 1))
  }

  /** The register type a loaded channel property gets: boolean means digital, settable means output. */
  function RegisterTypeOnLoad(isBoolean: bool, settable: bool): (t: RegisterType)
    ensures (t == DO || t == AO) <==> settable
    ensures (t == DI || t == DO) <==> isBoolean
  {
    if isBoolean then (if settable then DO else DI) else (if settable then AO else AI)
  }

  // ---------------------------------------------------------------------------
  // Round trips

  lemma {:induction false} DecimalRoundTrip(n: nat)
    ensures DecimalValue(Decimal(n)) == n
  {
    var s := Decimal(n);
    if n >= 10 {
      DecimalRoundTrip(n / 10);
      assert s[..|s| - 1] == Decimal(n / 10);
    }
  }

  lemma {:induction false} LeadingZero(s: string)
    requires forall i :: 0 <= i < |s| ==> IsDigit(s[i])
    ensures DecimalValue("0" + s) == DecimalValue(s)
  {
    if s != [] {
      var t := "0" + s;
      assert t[..|t| - 1] == "0" + s[..|s| - 1];
      LeadingZero(s[..|s| - 1]);
    }
  }

  lemma SplitTwo(a: string, b: string)
    requires '-' !in a && '-' !in b
    ensures Split(a + "-" + b, '-') == [a, b]
  {
    var s := a + "-" + b;
    assert s[|a|] == '-';
    assert s[..|a|] == a && s[|a| + 1..] == b;
  }

  lemma DigitsHaveNoDash(s: string)
    requires forall i :: 0 <= i < |s| ==> IsDigit(s[i])
    ensures '-' !in s
  {
  }

  /** "prefix-digits" reads back as the prefix and the numeral's value minus one. */
  lemma ParseNumbered(prefix: string, digits: string)
    requires '-' !in prefix
    requires |digits| >= 1 && forall i :: 0 <= i < |digits| ==> IsDigit(digits[i])
    requires DecimalValue(digits) > 0
    ensures ParseIdentifier(prefix + "-" + digits) == Some((prefix, DecimalValue(digits) - 1))
  {
    DigitsHaveNoDash(digits);
    SplitTwo(prefix, digits);
  }

  /** The two-character numeral of `{:0>2d}` has the value of the number. */
  lemma PaddedNumeral(n: nat)
    ensures var s := ZeroPad2(FormatInt(n));
            |s| >= 1 && (forall i :: 0 <= i < |s| ==> IsDigit(s[i])) && DecimalValue(s) == n
  {
    DecimalRoundTrip(n);
    if |Decimal(n)| == 1 {
      LeadingZero(Decimal(n));
    }
  }

  /**
   * A register's property identifier reads back as the prefix "register"
   * and the register's own address.
   */
  lemma PropertyIdentifierRoundTrip(address: nat)
    ensures ParseIdentifier(PropertyIdentifier(address)) == Some(("register", address))
  {
    PaddedNumeral(address + 1);
    ParseNumbered("register", ZeroPad2(FormatInt(address + 1)));
    assert PropertyIdentifier(address) == "register" + "-" + ZeroPad2(FormatInt(address + 1));
  }

  /** A setting identifier reads back as the setting's name and address, for a name without "-". */
  lemma SettingIdentifierRoundTrip(name: string, address: nat)
    requires '-' !in name
    ensures ParseIdentifier(SettingIdentifier(Some(name), address)) == Some((name, address))
  {
    DecimalRoundTrip(address + 1);
    ParseNumbered(name, Decimal(address + 1));
  }

  /**
   * A propagated register loads back with its own type exactly when its
   * data type matches its kind: boolean for the digital registers, anything
   * else for the analog ones. `settable` is `is_writable`.
   */
  lemma RegisterTypeRoundTrip(t: RegisterType, dataType: DataType)
    ensures RegisterTypeOnLoad(FbBusHelpers.TransformForGateway(dataType) == Some(GT.Boolean), t == DO || t == AO) == t
            <==> ((t == DI || t == DO) <==> dataType == Bool)
  {
  }
}
