// The Redis-backed property storage (miniserver_gateway/storages/redis.py).
// The storage keeps, per property, the last value the device reported, the
// value a client asked for ("expected") and whether that request is still
// pending; records are written to Redis as JSON and kept in a local cache.
// The Redis database is a map from key to the stored JSON as `json.loads`
// sees it, and whether a `set` succeeds is a parameter.

module RedisStorage {
  import opened Common
  import opened PropertyCache

  /** `StorageItem`: what the storage knows about one property. */
  datatype StorageItem = StorageItem(value: Value, expected: Value, pending: bool)

  /** What Redis holds under a key, as `json.loads` reads it. */
  datatype Stored =
    | Undecodable                        // not JSON: JSONDecodeError
    | Scalar                             // a JSON number, boolean or null: `"value" in` raises TypeError
    | JsonString(text: string)           // `"value" in` tests for a substring
    | JsonArray(items: seq<Value>)       // `"value" in` tests membership
    | JsonObject(fields: map<string, Value>)

  /** `PropertiesUtils.normalize_value`, whose definition is not part of this model. */
  type Normalizer = (PropertyItem, Value) -> Value

  /** Python's `t in s` on strings: `t` occurs in `s`. */
  predicate HasSubstring(s: string, t: string)
    decreases |s|
  {
    t <= s || (|s| > 0 && HasSubstring(s[1..], t))
  }

  /** Whether the `"value" in d and "expected" in d and "pending" in d` test passes on what Redis holds. */
  predicate HasRecordFields(s: Stored)
  {
    match s
    case JsonObject(f) => "value" in f && "expected" in f && "pending" in f
    case JsonArray(xs) => VText("value") in xs && VText("expected") in xs && VText("pending") in xs
    case JsonString(text) => HasSubstring(text, "value") && HasSubstring(text, "expected") && HasSubstring(text, "pending")
    case _ => false
  }

  /** The JSON object the storage writes for a record. */
  function Record(key: string, item: StorageItem): Stored
  {
    JsonObject(map["id" := VText(key), "value" := item.value, "expected" := item.expected,
                   "pending" := VBool(item.pending)])
  }

  /** The result of `read_property_data` with the Redis database and cache after it. */
  datatype ReadResult = ReadResult(
    data: Option<StorageItem>,
    store: map<string, Stored>,
    cache: map<string, StorageItem>,
    raised: bool)

  /**
   * `read_property_data`: the cached record; else nothing when Redis has no
   * such key; else a complete stored record, normalised and cached. A stored
   * object missing a field is deleted and reads as nothing, and so is an
   * array or a string that fails the field test; one that passes it raises
   * AttributeError on `.get`, and nothing is deleted. Text that is not JSON
   * and a scalar are deleted, and then deleting the (absent) cache entry
   * raises KeyError.
   */
  function Read(store: map<string, Stored>, cache: map<string, StorageItem>, key: string,
                item: PropertyItem, normalize: Normalizer): (r: ReadResult)
    ensures key in cache ==> r == ReadResult(Some(cache[key]), store, cache, false)
    ensures key !in cache ==> (r.data.Some? ==> key in store && store[key].JsonObject? && r.cache == cache[key := r.data.value])
    ensures r.data.Some? ==> !r.raised
    ensures r.store == store || (key in store && r.store == store - {key})
    ensures key !in cache && key !in store ==> r == ReadResult(None, store, cache, false)
    ensures key !in cache && key in store && store[key].JsonObject? && HasRecordFields(store[key]) ==>
              var f := store[key].fields;
              r.data == Some(StorageItem(normalize(item, f["value"]), normalize(item, f["expected"]), Truthy(f["pending"]))) &&
              r.store == store && !r.raised
    ensures key !in cache && key in store && store[key].JsonObject? && !HasRecordFields(store[key]) ==>
              r == ReadResult(None, store - {key}, cache, false)
    ensures key !in cache && key in store && (store[key].JsonArray? || store[key].JsonString?) ==>
              r == if HasRecordFields(store[key]) then ReadResult(None, store, cache, true)
                   else ReadResult(None, store - {key}, cache, false)
    ensures key !in cache && key in store && (store[key].Scalar? || store[key].Undecodable?) ==>
              r == ReadResult(None, store - {key}, cache, true)
  {
    if key in cache then ReadResult(Some(cache[key]), store, cache, false)
    else if key !in store then ReadResult(None, store, cache, false)
    else
      match store[key]
      case JsonObject(f) =>
        if "value" in f && "expected" in f && "pending" in f then
          var d := StorageItem(normalize(item, f["value"]), normalize(item, f["expected"]), Truthy(f["pending"]));
          ReadResult(Some(d), store, cache[key := d], false)
        else ReadResult(None, store - {key}, cache, false)
      case JsonArray(_) =>
        if HasRecordFields(store[key]) then ReadResult(None, store, cache, true)
        else ReadResult(None, store - {key}, cache, false)
      case JsonString(_) =>
        if HasRecordFields(store[key]) then ReadResult(None, store, cache, true)
        else ReadResult(None, store - {key}, cache, false)
      case Scalar => ReadResult(None, store - {key}, cache, true)
      case Undecodable => ReadResult(None, store - {key}, cache, true)
  }

  /**
   * The record `write_property_value` writes, or None when it writes
   * nothing: a stored, non-null, equal value that is not pending is kept.
   * The written record holds the new value; a stored expected value that
   * the new value does not meet stays expected and pending, any other
   * leaves nothing expected or pending.
   */
  function ValueRecord(stored: Option<StorageItem>, v: Value): (r: Option<StorageItem>)
    ensures r.Some? ==> r.value.value == v
    ensures r.Some? && r.value.pending ==> stored.Some? && r.value.expected == stored.value.expected &&
                                           r.value.expected != VNull && !PyEq(r.value.expected, v)
    ensures r.Some? && !r.value.pending ==> r.value.expected == VNull
  {
    if stored.None? || stored.value.value == VNull || !PyEq(v, stored.value.value) || stored.value.pending then
      if stored.Some? && stored.value.expected != VNull && !PyEq(stored.value.expected, v)
      then Some(StorageItem(v, stored.value.expected, true))
      else Some(StorageItem(v, VNull, false))
    else None
  }

  /**
   * The record `write_property_expected` writes, or None when it writes
   * nothing: asking for the value already stored writes nothing; otherwise
   * the stored value is kept and the new expected value is pending.
   */
  function ExpectedRecord(stored: Option<StorageItem>, e: Value): (r: Option<StorageItem>)
    ensures r.Some? ==> r.value.expected == e && r.value.pending
    ensures r.Some? && stored.Some? ==> r.value.value == stored.value.value
    ensures r.None? ==> stored.Some? && stored.value.value != VNull
  {
    if stored.None? || stored.value.value == VNull || !PyEq(e, stored.value.value)
    then Some(StorageItem(if stored.Some? then stored.value.value else VNull, e, true))
    else None
  }

  /** Python's `==` is reflexive on these values. */
  lemma PyEqReflexive(v: Value)
    ensures PyEq(v, v)
  {
  }

  /** A write is skipped exactly when a non-null, equal, settled value is stored. */
  lemma ValueWriteSkipped(stored: Option<StorageItem>, v: Value)
    ensures ValueRecord(stored, v).None? <==>
              stored.Some? && stored.value.value != VNull && PyEq(v, stored.value.value) && !stored.value.pending
  {
  }

  /**
   * A written record holds the new value. A stored expected value that the
   * new value does not meet is kept, pending; otherwise nothing is expected
   * or pending.
   */
  lemma ValueWriteContents(stored: Option<StorageItem>, v: Value)
    requires ValueRecord(stored, v).Some?
    ensures var r := ValueRecord(stored, v).value;
            r.value == v &&
            if stored.Some? && stored.value.expected != VNull && !PyEq(stored.value.expected, v)
            then r.expected == stored.value.expected && r.pending
            else r.expected == VNull && !r.pending
  {
  }

  /** Writing the same value again writes nothing or the same record. */
  lemma ValueWriteIdempotent(stored: Option<StorageItem>, v: Value)
    requires v != VNull && ValueRecord(stored, v).Some?
    ensures var r := ValueRecord(stored, v);
            ValueRecord(r, v) == None || ValueRecord(r, v) == r
  {
    PyEqReflexive(v);
  }

  /**
   * A value that meets the pending expected value settles the record: the
   * value is stored and nothing is expected or pending any more. One that
   * does not meet it leaves the request pending.
   */
  lemma ExpectedThenValue(stored: Option<StorageItem>, e: Value, v: Value)
    requires e != VNull && ExpectedRecord(stored, e).Some?
    ensures var r := ExpectedRecord(stored, e);
            ValueRecord(r, v) == if PyEq(e, v) then Some(StorageItem(v, VNull, false))
                                 else Some(StorageItem(v, e, true))
  {
  }

  /** An expected-value write is skipped exactly when the stored value is non-null and equal to it. */
  lemma ExpectedWriteSkipped(stored: Option<StorageItem>, e: Value)
    ensures ExpectedRecord(stored, e).None? <==>
              stored.Some? && stored.value.value != VNull && PyEq(e, stored.value.value)
  {
  }

  /** A written expected record keeps the stored value, holds the request and is pending. */
  lemma ExpectedWriteContents(stored: Option<StorageItem>, e: Value)
    requires ExpectedRecord(stored, e).Some?
    ensures ExpectedRecord(stored, e).value ==
              StorageItem(if stored.Some? then stored.value.value else VNull, e, true)
  {
  }

  /** A written record, read back with an empty cache, is the record with its values normalised. */
  lemma WrittenRecordReadsBack(store: map<string, Stored>, key: string, item: PropertyItem,
                               normalize: Normalizer, rec: StorageItem)
    ensures var r := Read(store[key := Record(key, rec)], map[], key, item, normalize);
            r.data == Some(StorageItem(normalize(item, rec.value), normalize(item, rec.expected), rec.pending)) &&
            !r.raised
  {
  }

  /** `RedisStorage`: the Redis database and the local cache of records. */
  class RedisStorage {
    /** The Redis database. */
    var store: map<string, Stored>
    /** `__data_cache`. */
    var cache: map<string, StorageItem>

    constructor(store: map<string, Stored>)
      ensures this.store == store && cache == map[]
    {
      this.store := store;
      cache := map[];
    }

    /** `clear_cache`. */
    method ClearCache()
      modifies this`cache
      ensures cache == map[]
    {
      cache := map[];
    }

    /** `read_property_data`. */
    method ReadPropertyData(item: PropertyItem, normalize: Normalizer) returns (data: Option<StorageItem>, raised: bool)
      modifies this
      ensures ReadResult(data, store, cache, raised) == Read(old(store), old(cache), item.id, item, normalize)
    {
      var key := item.id;
      raised := false;
      if key in cache {
        return Some(cache[key]), false;
      }
      if key !in store {
        return None, false;
      }
      match store[key] {
        case JsonObject(f) =>
          if "value" in f && "expected" in f && "pending" in f {
            var d := StorageItem(normalize(item, f["value"]), normalize(item, f["expected"]), Truthy(f["pending"]));
            cache := cache[key := d];
            return Some(d), false;
          }
          store := store - {key};
          data := None;
        case JsonArray(_) =>
          data := None;
          if HasRecordFields(store[key]) {
            raised := true;
          } else {
            store := store - {key};
          }
        case JsonString(_) =>
          data := None;
          if HasRecordFields(store[key]) {
            raised := true;
          } else {
            store := store - {key};
          }
        case Scalar =>
          store := store - {key};
          data, raised := None, true;
        case Undecodable =>
          store := store - {key};
          data, raised := None, true;
      }
    }

    /** `read_property_value`: the stored value, or null. */
    method ReadPropertyValue(item: PropertyItem, normalize: Normalizer) returns (v: Value, raised: bool)
      modifies this
      ensures var r := Read(old(store), old(cache), item.id, item, normalize);
              store == r.store && cache == r.cache && raised == r.raised &&
              v == if r.data.Some? then r.data.value.value else VNull
    {
      var data;
      data, raised := ReadPropertyData(item, normalize);
      v := if data.Some? then data.value.value else VNull;
    }

    /** `read_property_expected`: the stored expected value, or null. */
    method ReadPropertyExpected(item: PropertyItem, normalize: Normalizer) returns (e: Value, raised: bool)
      modifies this
      ensures var r := Read(old(store), old(cache), item.id, item, normalize);
              store == r.store && cache == r.cache && raised == r.raised &&
              e == if r.data.Some? then r.data.value.expected else VNull
    {
      var data;
      data, raised := ReadPropertyData(item, normalize);
      e := if data.Some? then data.value.expected else VNull;
    }

    /**
     * `write_property_value`: read the record, then write the new one when
     * one is due. Redis and the cache get the record only when the `set`
     * succeeds, and the result is True exactly then.
     */
    method WritePropertyValue(item: PropertyItem, v: Value, normalize: Normalizer, storeOk: bool)
      returns (written: bool, raised: bool)
      modifies this
      ensures var r := Read(old(store), old(cache), item.id, item, normalize);
              var rec := ValueRecord(r.data, v);
              raised == r.raised &&
              written == (!r.raised && rec.Some? && storeOk) &&
              store == (if written then r.store[item.id := Record(item.id, rec.value)] else r.store) &&
              cache == (if written then r.cache[item.id := rec.value] else r.cache)
    {
      var stored;
      stored, raised := ReadPropertyData(item, normalize);
      written := false;
      if raised {
        return;
      }
      if stored.None? || stored.value.value == VNull || !PyEq(v, stored.value.value) || stored.value.pending {
        var expected := VNull;
        var pending := false;
        if stored.Some? && stored.value.expected != VNull {
          if !PyEq(stored.value.expected, v) {
            pending := true;
            expected := stored.value.expected;
          }
        }
        var rec := StorageItem(v, expected, pending);
        if storeOk {
          store := store[item.id := Record(item.id, rec)];
          cache := cache[item.id := rec];
          written := true;
        }
      }
    }

    /**
     * `write_property_expected`: read the record, then write the request
     * when one is due; as for values, only a successful `set` updates Redis
     * and the cache.
     */
    method WritePropertyExpected(item: PropertyItem, e: Value, normalize: Normalizer, storeOk: bool)
      returns (written: bool, raised: bool)
      modifies this
      ensures var r := Read(old(store), old(cache), item.id, item, normalize);
              var rec := ExpectedRecord(r.data, e);
              raised == r.raised &&
              written == (!r.raised && rec.Some? && storeOk) &&
              store == (if written then r.store[item.id := Record(item.id, rec.value)] else r.store) &&
              cache == (if written then r.cache[item.id := rec.value] else r.cache)
    {
      var stored;
      stored, raised := ReadPropertyData(item, normalize);
      written := false;
      if raised {
        return;
      }
      if stored.None? || stored.value.value == VNull || !PyEq(e, stored.value.value) {
        var rec := StorageItem(if stored.Some? then stored.value.value else VNull, e, true);
        if storeOk {
          store := store[item.id := Record(item.id, rec)];
          cache := cache[item.id := rec];
          written := true;
        }
      }
    }
  }
}
