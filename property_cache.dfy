// Property items and the repositories that cache them
// (miniserver_gateway/db/cache.py). An item is an immutable record of one
// device or channel property; `get_format` reads its format string and
// `to_array` turns it into the dictionary the exchanges publish. A
// repository loads its items from the database on the first lookup and
// forgets them on `clear_cache`.

module PropertyCache {
  import opened Common
  import opened GatewayTypes

  /** A UUID, kept as the canonical text `str(uuid)` gives; the repositories key their items by it. */
  type Uuid = string

  /**
   * `DevicePropertyItem` (no channel) and `ChannelPropertyItem` (with the
   * channel's id). Every getter of the source returns a constructor argument,
   * which a field of this record is.
   */
  datatype PropertyItem = PropertyItem(
    id: Uuid,
    key: string,
    identifier: string,
    settable: bool,
    queryable: bool,
    dataType: Option<DataType>,
    unit: Option<string>,
    format: Option<string>,
    device: Uuid,
    channel: Option<Uuid>)

  // ---------------------------------------------------------------------------
  // The string operations `get_format` uses

  /** `str.isspace`: the characters `str.strip()` removes. */
  predicate IsSpace(c: char)
  {
    c == ' ' || '\t' <= c <= '\r' || '\U{1c}' <= c <= '\U{1f}' || c == '\U{85}' || c == '\U{a0}' ||
    c == '\U{1680}' || '\U{2000}' <= c <= '\U{200a}' || c == '\U{2028}' || c == '\U{2029}' ||
    c == '\U{202f}' || c == '\U{205f}' || c == '\U{3000}'
  }

  /** Leading whitespace removed. */
  function StripStart(s: string): (r: string)
    ensures |r| <= |s| && r == s[|s| - |r|..]
    ensures forall i :: 0 <= i < |s| - |r| ==> IsSpace(s[i])
    ensures |r| == 0 || !IsSpace(r[0])
  {
    if |s| > 0 && IsSpace(s[0]) then StripStart(s[1..]) else s
  }

  /** Trailing whitespace removed. */
  function StripEnd(s: string): (r: string)
    ensures |r| <= |s| && r == s[..|r|]
    ensures forall i :: |r| <= i < |s| ==> IsSpace(s[i])
    ensures |r| == 0 || !IsSpace(r[|r| - 1])
  {
    if |s| > 0 && IsSpace(s[|s| - 1]) then StripEnd(s[..|s| - 1]) else s
  }

  /** `str.strip()`. */
  function Strip(s: string): string
  {
    StripEnd(StripStart(s))
  }

  /** Stripping twice is stripping once. */
  lemma StripIdempotent(s: string)
    ensures Strip(Strip(s)) == Strip(s)
  {
    var t := Strip(s);
    assert |t| == 0 || !IsSpace(t[0]) by {
      var u := StripStart(s);
      if |t| > 0 {
        assert t == u[..|t|];
      }
    }
    assert StripStart(t) == t;
  }

  /** `str.split(sep)`: the pieces between the separators, empty ones included. */
  function Split(s: string, sep: char): (parts: seq<string>)
    ensures |parts| >= 1
    ensures forall i :: 0 <= i < |parts| ==> sep !in parts[i]
  {
    if |s| == 0 then [""]
    else
      var rest := Split(s[1..], sep);
      if s[0] == sep then [""] + rest
      else
        assert sep !in rest[0];
        [[s[0]] + rest[0]] + rest[1..]
  }

  /** `sep.join(parts)`. */
  function Join(parts: seq<string>, sep: char): string
    requires |parts| >= 1
  {
    if |parts| == 1 then parts[0] else parts[0] + [sep] + Join(parts[1..], sep)
  }

  /** Joining the pieces of a split gives the string back. */
  lemma {:induction false} JoinSplit(s: string, sep: char)
    ensures Join(Split(s, sep), sep) == s
  {
    if |s| > 0 {
      var rest := Split(s[1..], sep);
      JoinSplit(s[1..], sep);
      if s[0] == sep {
        assert ([""] + rest)[1..] == rest;
        assert s == [sep] + s[1..];
      } else if |rest| == 1 {
        assert s == [s[0]] + s[1..];
      } else {
        var parts := [[s[0]] + rest[0]] + rest[1..];
        assert parts[1..] == rest[1..];
        assert Join(rest, sep) == rest[0] + [sep] + Join(rest[1..], sep);
        assert s == [s[0]] + s[1..];
      }
    }
  }

  /** A piece free of the separator, then the separator, splits off as the first piece. */
  lemma {:induction false} SplitAfter(a: string, sep: char, rest: string)
    requires sep !in a
    ensures Split(a + [sep] + rest, sep) == [a] + Split(rest, sep)
  {
    if |a| > 0 {
      assert (a + [sep] + rest)[1..] == a[1..] + [sep] + rest;
      SplitAfter(a[1..], sep, rest);
      assert [a[0]] + a[1..] == a;
    } else {
      assert a + [sep] + rest == [sep] + rest;
    }
  }

  /** A string free of the separator is a single piece. */
  lemma {:induction false} SplitNone(a: string, sep: char)
    requires sep !in a
    ensures Split(a, sep) == [a]
  {
    if |a| > 0 {
      SplitNone(a[1..], sep);
      assert [a[0]] + a[1..] == a;
    }
  }

  /** Splitting a join of separator-free pieces gives the pieces back. */
  lemma {:induction false} SplitJoin(parts: seq<string>, sep: char)
    requires |parts| >= 1
    requires forall i :: 0 <= i < |parts| ==> sep !in parts[i]
    ensures Split(Join(parts, sep), sep) == parts
  {
    if |parts| == 1 {
      SplitNone(parts[0], sep);
    } else {
      SplitJoin(parts[1..], sep);
      SplitAfter(parts[0], sep, Join(parts[1..], sep));
      assert parts == [parts[0]] + parts[1..];
    }
  }

  predicate IsDigit(c: char)
  {
    '0' <= c <= '9'
  }

  predicate AllDigits(s: string)
  {
    forall i :: 0 <= i < |s| ==> IsDigit(s[i])
  }

  /** The number a string of decimal digits stands for. */
  function DecimalValue(s: string): nat
    requires AllDigits(s)
  {
    if |s| == 0 then 0 else DecimalValue(s[..|s| - 1]) * 10 + (s[|s| - 1] as int - '0' as int)
  }

  /**
   * `int(s)` on a string: surrounding whitespace, an optional sign and at
   * least one ASCII digit; None where `int` raises ValueError.
   */
  function ParseInt(s: string): Option<int>
  {
    var t := Strip(s);
    if |t| > 0 && (t[0] == '-' || t[0] == '+') then
      if |t| > 1 && AllDigits(t[1..]) then
        var v: int := DecimalValue(t[1..]);
        Some(if t[0] == '-' then -v else v)
      else None
    else if |t| > 0 && AllDigits(t) then Some(DecimalValue(t))
    else None
  }

  /** The decimal text of a natural number, most significant digit first. */
  function NaturalText(n: nat): (s: string)
    ensures |s| > 0 && AllDigits(s) && DecimalValue(s) == n
  {
    var d := ['0' + (n % 10) as char];
    if n < 10 then d
    else
      var s := NaturalText(n / 10) + d;
      assert s[..|s| - 1] == NaturalText(n / 10);
      s
  }

  /** `str(n)`. */
  function IntText(n: int): string
  {
    if n < 0 then "-" + NaturalText(-n) else NaturalText(n)
  }

  /** A string with no surrounding whitespace strips to itself. */
  lemma StripUnchanged(s: string)
    requires |s| > 0 && !IsSpace(s[0]) && !IsSpace(s[|s| - 1])
    ensures Strip(s) == s
  {
  }

  /** `int(str(n)) == n`. */
  lemma ParseIntText(n: int)
    ensures ParseInt(IntText(n)) == Some(n)
  {
    var t := IntText(n);
    StripUnchanged(t);
    if n < 0 {
      assert t[1..] == NaturalText(-n);
    }
  }

  // ---------------------------------------------------------------------------
  // get_format

  /** A parsed format: an integer range or the set of enum items. */
  datatype PropertyFormat = IntRange(min: int, max: int) | EnumItems(items: set<string>)

  /**
   * What `get_format` yields: a format or None; for a float property, the
   * two texts it would convert with `float` and compare; or ValueError from
   * `int` on a text that is not an integer.
   */
  datatype FormatOutcome =
    | Format(format: Option<PropertyFormat>)
    | FloatBounds(min: string, max: string)
    | FormatRaises

  /** The integer branch: the first two ':'-separated pieces as an ordered pair. */
  function IntFormat(format: string): (r: FormatOutcome)
    ensures !r.FloatBounds?
    ensures r.Format? && r.format.Some? ==> r.format.value.IntRange? && r.format.value.min <= r.format.value.max
  {
    var parts := Split(format, ':');
    if |parts| < 2 then Format(None)
    else
      match (ParseInt(parts[0]), ParseInt(parts[1]))
      case (None, _) => FormatRaises
      case (_, None) => FormatRaises
      case (Some(a), Some(b)) => if a <= b then Format(Some(IntRange(a, b))) else Format(None)
  }

  /** The enum branch: the stripped ','-separated pieces. */
  function EnumFormat(format: string): (r: set<string>)
    ensures Strip(Split(format, ',')[0]) in r
    ensures forall p :: p in Split(format, ',') ==> Strip(p) in r
  {
    set p | p in Split(format, ',') :: Strip(p)
  }

  /** `get_format`. */
  function GetFormat(item: PropertyItem): (r: FormatOutcome)
    ensures r.FloatBounds? ==> item.dataType == Some(Float)
    ensures r.FormatRaises? ==> item.dataType == Some(Int)
    ensures r.Format? && r.format.Some? && r.format.value.IntRange? ==>
              item.dataType == Some(Int) && r.format.value.min <= r.format.value.max
    ensures r.Format? && r.format.Some? && r.format.value.EnumItems? ==> item.dataType == Some(Enum)
  {
    if item.format.None? then Format(None)
    else if item.dataType == Some(Int) then IntFormat(item.format.value)
    else if item.dataType == Some(Float) then
      var parts := Split(item.format.value, ':');
      if |parts| < 2 then Format(None) else FloatBounds(parts[0], parts[1])
    else if item.dataType == Some(Enum) then Format(Some(EnumItems(EnumFormat(item.format.value))))
    else Format(None)
  }

  /** An item without a format, or whose type is neither int, float nor enum, has no format. */
  lemma NoFormat(item: PropertyItem)
    requires item.format.None? || item.dataType !in {Some(Int), Some(Float), Some(Enum)}
    ensures GetFormat(item) == Format(None)
  {
  }

  /** The text of an integer has no ':'. */
  lemma IntTextNoColon(n: int)
    ensures ':' !in IntText(n)
  {
    var s := IntText(n);
    if n < 0 {
      assert forall i :: 1 <= i < |s| ==> s[i] == NaturalText(-n)[i - 1];
    }
    assert forall i :: 0 <= i < |s| ==> s[i] != ':';
  }

  /** A ':'-free piece followed by nothing or by ':' and more splits off as the first piece. */
  lemma SplitFirst(a: string, extra: string)
    requires ':' !in a && (extra == "" || extra[0] == ':')
    ensures Split(a + extra, ':') == if extra == "" then [a] else [a] + Split(extra[1..], ':')
  {
    if extra == "" {
      assert a + extra == a;
      SplitNone(a, ':');
    } else {
      assert a + extra == a + [':'] + extra[1..];
      SplitAfter(a, ':', extra[1..]);
    }
  }

  /**
   * An integer property with format "a:b" (and any further ':' pieces) has
   * the range (a, b) when a <= b and no format otherwise.
   */
  lemma IntFormatRange(item: PropertyItem, a: int, b: int, extra: string)
    requires item.dataType == Some(Int)
    requires extra == "" || extra[0] == ':'
    requires item.format == Some(IntText(a) + ":" + IntText(b) + extra)
    ensures GetFormat(item) == Format(if a <= b then Some(IntRange(a, b)) else None)
  {
    var sa, sb := IntText(a), IntText(b);
    IntTextNoColon(a);
    IntTextNoColon(b);
    SplitFirst(sb, extra);
    var rest := sb + extra;
    assert sa + ":" + sb + extra == sa + [':'] + rest;
    SplitAfter(sa, ':', rest);
    var parts := Split(item.format.value, ':');
    assert parts[0] == sa && parts[1] == sb;
    ParseIntText(a);
    ParseIntText(b);
  }

  /** An integer property whose format has no ':' has no format. */
  lemma IntFormatSingle(item: PropertyItem)
    requires item.dataType == Some(Int) && item.format.Some? && ':' !in item.format.value
    ensures GetFormat(item) == Format(None)
  {
    SplitNone(item.format.value, ':');
  }

  /** An integer property whose lower bound is not an integer ("x:5", ":5") makes `int` raise. */
  lemma IntFormatRaises(item: PropertyItem, a: string, rest: string)
    requires item.dataType == Some(Int) && ':' !in a && ParseInt(a).None?
    requires item.format == Some(a + ":" + rest)
    ensures GetFormat(item) == FormatRaises
  {
    assert a + ":" + rest == a + [':'] + rest;
    SplitAfter(a, ':', rest);
  }

  /** An enum property whose format lists names separated by ',' has exactly the stripped names as items. */
  lemma EnumFormatItems(item: PropertyItem, names: seq<string>)
    requires item.dataType == Some(Enum)
    requires |names| >= 1 && forall i :: 0 <= i < |names| ==> ',' !in names[i]
    requires item.format == Some(Join(names, ','))
    ensures GetFormat(item) == Format(Some(EnumItems(set n | n in names :: Strip(n))))
  {
    SplitJoin(names, ',');
  }

  // ---------------------------------------------------------------------------
  // to_array

  /** The keys of the dictionary `to_array` returns. */
  const ItemKeys: set<string> := {"id", "key", "identifier", "settable", "queryable", "data_type", "unit", "format"}

  function TextOrNull(s: Option<string>): Value
  {
    if s.Some? then VText(s.value) else VNull
  }

  /**
   * `to_array`: the eight fields, the data type as its enum value; the
   * data type reads back as the item's.
   */
  function ToArray(item: PropertyItem): (r: map<string, Value>)
    ensures r.Keys == ItemKeys
    ensures r["id"] == VText(item.id) && r["key"] == VText(item.key)
    ensures r["data_type"] == VNull <==> item.dataType.None?
    ensures item.dataType.Some? ==>
              r["data_type"].VText? && DataTypeFromValue(r["data_type"].s) == item.dataType
  {
    map[
      "id" := VText(item.id),
      "key" := VText(item.key),
      "identifier" := VText(item.identifier),
      "settable" := VBool(item.settable),
      "queryable" := VBool(item.queryable),
      "data_type" := if item.dataType.Some? then VText(DataTypeValue(item.dataType.value)) else VNull,
      "unit" := TextOrNull(item.unit),
      "format" := TextOrNull(item.format)
    ]
  }

  // ---------------------------------------------------------------------------
  // The repositories

  /** Property ids are the table's primary key: no two items share one. */
  predicate DistinctIds(items: seq<PropertyItem>)
  {
    forall i, j :: 0 <= i < j < |items| ==> items[i].id != items[j].id
  }

  /** The item stored under the id, if any. */
  function ItemWithId(items: seq<PropertyItem>, id: Uuid): (r: Option<PropertyItem>)
    ensures r.Some? ==> r.value in items && r.value.id == id
    ensures r.None? <==> forall i :: 0 <= i < |items| ==> items[i].id != id
  {
    if |items| == 0 then None
    else if items[0].id == id then Some(items[0])
    else ItemWithId(items[1..], id)
  }

  /** With distinct ids, the item found under an id is the one that has it. */
  lemma {:induction false} ItemWithIdIsTheItem(items: seq<PropertyItem>, k: nat)
    requires DistinctIds(items) && k < |items|
    ensures ItemWithId(items, items[k].id) == Some(items[k])
  {
    if k > 0 {
      assert DistinctIds(items[1..]);
      ItemWithIdIsTheItem(items[1..], k - 1);
    }
  }

  /** A key, which is a string, equals the looked-up value only when that is the same string. */
  predicate KeyMatches(item: PropertyItem, key: Value)
  {
    key.VText? && key.s == item.key
  }

  /** The first item whose key equals the looked-up value. */
  function ItemWithKey(items: seq<PropertyItem>, key: Value): (r: Option<PropertyItem>)
    ensures r.Some? ==> r.value in items && KeyMatches(r.value, key)
    ensures r.None? <==> forall i :: 0 <= i < |items| ==> !KeyMatches(items[i], key)
  {
    if |items| == 0 then None
    else if KeyMatches(items[0], key) then Some(items[0])
    else ItemWithKey(items[1..], key)
  }

  /** The item found under a key is the first one with that key. */
  lemma {:induction false} ItemWithKeyIsFirst(items: seq<PropertyItem>, key: Value, k: nat)
    requires k < |items| && KeyMatches(items[k], key)
    requires forall j :: 0 <= j < k ==> !KeyMatches(items[j], key)
    ensures ItemWithKey(items, key) == Some(items[k])
  {
    if k > 0 {
      ItemWithKeyIsFirst(items[1..], key, k - 1);
    }
  }

  /** The loop of `get_property_by_key` over the loaded items. */
  method FindByKey(items: seq<PropertyItem>, key: Value) returns (r: Option<PropertyItem>)
    ensures r == ItemWithKey(items, key)
  {
    var i := 0;
    while i < |items|
      invariant 0 <= i <= |items|
      invariant forall j :: 0 <= j < i ==> !KeyMatches(items[j], key)
    {
      if KeyMatches(items[i], key) {
        ItemWithKeyIsFirst(items, key, i);
        return Some(items[i]);
      }
      i := i + 1;
    }
    return None;
  }

  /**
   * `DevicesPropertiesCache` / `ChannelsPropertiesCache`: the items of one
   * property table, loaded on the first lookup and kept until `clear_cache`.
   */
  class PropertiesRepository {
    /** The rows `initialize` reads from the database table. */
    var table: seq<PropertyItem>
    /** `_cache`: None until a lookup loads the table. */
    var cache: Option<seq<PropertyItem>>

    predicate Valid()
      reads this
    {
      DistinctIds(table) && (cache.Some? ==> DistinctIds(cache.value))
    }

    /** The items a lookup sees: the cache, or the table it would load. */
    function Loaded(): seq<PropertyItem>
      reads this
    {
      if cache.Some? then cache.value else table
    }

    /** A repository starts without a cache. */
    constructor(rows: seq<PropertyItem>)
      requires DistinctIds(rows)
      ensures Valid() && table == rows && cache.None?
    {
      table := rows;
      cache := None;
    }

    /** `initialize`: load the table. */
    method Initialize()
      requires Valid()
      modifies this`cache
      ensures Valid() && cache == Some(table)
    {
      cache := Some(table);
    }

    /** `get_property_by_id`: load if needed, then the item under the id, or None. */
    method GetPropertyById(id: Uuid) returns (r: Option<PropertyItem>)
      requires Valid()
      modifies this`cache
      ensures Valid() && cache == Some(old(Loaded()))
      ensures r == ItemWithId(old(Loaded()), id)
    {
      if cache.None? {
        Initialize();
      }
      r := ItemWithId(cache.value, id);
    }

    /** `get_property_by_key`: load if needed, then the first item with the key, or None. */
    method GetPropertyByKey(key: Value) returns (r: Option<PropertyItem>)
      requires Valid()
      modifies this`cache
      ensures Valid() && cache == Some(old(Loaded()))
      ensures r == ItemWithKey(old(Loaded()), key)
    {
      if cache.None? {
        Initialize();
      }
      r := FindByKey(cache.value, key);
    }

    /** `clear_cache`: the next lookup loads the table again. */
    method ClearCache()
      modifies this`cache
      ensures cache.None? && Loaded() == table
    {
      cache := None;
    }
  }
}
