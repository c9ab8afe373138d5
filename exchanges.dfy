// The exchanges container (miniserver_gateway/exchanges/exchanges.py): the
// acceptance of a message received from a client, the queue of stored
// values and changed entities to publish, and their fan-out to every
// loaded exchange.

module Exchanges {
  import opened Common
  import opened PropertyCache
  import opened ExchangeRouting

  // ---------------------------------------------------------------------------
  // Receiving

  /** What `json.loads` makes of the received text. */
  datatype Received =
    | Undecodable
    /** Valid JSON whose top level is not an object (a list, a string, a number, null). */
    | NotObject
    | JsonObject(fields: map<string, Value>)

  /** `dict.get(key)`: the value, or None. */
  function Field(m: map<string, Value>, key: string): Value
  {
    if key in m then m[key] else VNull
  }

  /** `ExchangePropertyExpectedValueEvent`: a client asks for a new value of a property. */
  datatype ExpectedValueEvent = ExpectedValueEvent(item: PropertyItem, expected: Value)

  /** How a call ends: it returns a verdict (and the event it dispatched), or it raises. */
  datatype Outcome = Returned(accepted: bool, event: Option<ExpectedValueEvent>) | Raised

  /** The shape `process_received_message` demands: text routing key and origin, text or object data. */
  predicate WellFormed(fields: map<string, Value>)
    ensures WellFormed(fields) ==> "routing_key" in fields && "origin" in fields && "data" in fields
  {
    Field(fields, "routing_key").VText? && Field(fields, "origin").VText? &&
    (Field(fields, "data").VText? || Field(fields, "data").VObject?)
  }

  /** Whether a routing key is one of the two property-data keys. */
  predicate IsDataKey(routingKey: string)
  {
    routingKey == DevicesPropertiesData || routingKey == ChannelsPropertiesData
  }

  /**
   * `__process_message`: a message from another origin on a property-data
   * key is accepted when its "property" names a property of the matching
   * cache, and then an expected-value event is dispatched for that
   * property. Data that is present but not an object raises, since it has
   * no `get`.
   */
  function ProcessMessage(routingKey: string, origin: string, data: Value, appOrigin: string,
                          devices: seq<PropertyItem>, channels: seq<PropertyItem>): (r: Outcome)
    ensures r.Raised? <==> origin != appOrigin && IsDataKey(routingKey) && data != VNull && !data.VObject?
    ensures r.Returned? ==> (r.event.Some? <==> r.accepted)
    ensures r.Returned? && r.accepted ==> origin != appOrigin && IsDataKey(routingKey) && data.VObject?
  {
    if origin == appOrigin || !IsDataKey(routingKey) || data == VNull then Returned(false, None)
    else if !data.VObject? then Raised
    else
      var items := if routingKey == DevicesPropertiesData then devices else channels;
      match ItemWithKey(items, Field(data.fields, "property"))
      case Some(item) => Returned(true, Some(ExpectedValueEvent(item, Field(data.fields, "expected"))))
      case None => Returned(false, None)
  }

  /**
   * `process_received_message`: text that is not JSON is refused, a JSON
   * value other than an object raises (it has no `get`), an object of the
   * wrong shape is refused, and any other goes to `__process_message`.
   */
  function ProcessReceived(received: Received, appOrigin: string,
                           devices: seq<PropertyItem>, channels: seq<PropertyItem>): (r: Outcome)
    ensures r.Raised? ==> !received.Undecodable?
    ensures r.Returned? && r.accepted ==> received.JsonObject? && WellFormed(received.fields) && r.event.Some?
  {
    match received
    case Undecodable => Returned(false, None)
    case NotObject => Raised
    case JsonObject(fields) =>
      if WellFormed(fields)
      then ProcessMessage(fields["routing_key"].s, fields["origin"].s, fields["data"], appOrigin, devices, channels)
      else Returned(false, None)
  }

  /** A message the gateway itself sent is never accepted. */
  lemma OwnOriginRefused(received: Received, appOrigin: string, devices: seq<PropertyItem>, channels: seq<PropertyItem>)
    requires received.JsonObject? && Field(received.fields, "origin") == VText(appOrigin)
    ensures ProcessReceived(received, appOrigin, devices, channels) == Returned(false, None)
  {
  }

  /** Only the two property-data keys can be accepted. */
  lemma OnlyDataKeysAccepted(received: Received, appOrigin: string, devices: seq<PropertyItem>, channels: seq<PropertyItem>)
    requires ProcessReceived(received, appOrigin, devices, channels).Returned?
    requires ProcessReceived(received, appOrigin, devices, channels).accepted
    ensures received.JsonObject? && WellFormed(received.fields)
    ensures IsDataKey(received.fields["routing_key"].s) && received.fields["origin"].s != appOrigin
  {
  }

  /**
   * A well-formed message from another origin on a data key with object
   * data is accepted exactly when the matching cache has a property under
   * its "property" key, and then exactly that property's event goes out.
   */
  lemma AcceptedIffFound(routingKey: string, origin: string, data: map<string, Value>, appOrigin: string,
                         devices: seq<PropertyItem>, channels: seq<PropertyItem>)
    requires origin != appOrigin && IsDataKey(routingKey)
    ensures var items := if routingKey == DevicesPropertiesData then devices else channels;
            var r := ProcessMessage(routingKey, origin, VObject(data), appOrigin, devices, channels);
            r.Returned? && (r.accepted <==> exists i :: 0 <= i < |items| && KeyMatches(items[i], Field(data, "property"))) &&
            (r.event.Some? <==> r.accepted) &&
            (r.accepted ==> r.event.value.item in items && r.event.value.expected == Field(data, "expected"))
  {
  }

  /** Malformed messages and invalid JSON are refused without raising; only a non-object raises. */
  lemma RefusedOrRaised(received: Received, appOrigin: string, devices: seq<PropertyItem>, channels: seq<PropertyItem>)
    ensures received.Undecodable? ==> ProcessReceived(received, appOrigin, devices, channels) == Returned(false, None)
    ensures received.JsonObject? && !WellFormed(received.fields) ==>
              ProcessReceived(received, appOrigin, devices, channels) == Returned(false, None)
    ensures ProcessReceived(received, appOrigin, devices, channels).Raised? <==>
              received.NotObject? ||
              (received.JsonObject? && WellFormed(received.fields) &&
               received.fields["origin"].s != appOrigin && IsDataKey(received.fields["routing_key"].s) &&
               received.fields["data"].VText?)
  {
  }

  // ---------------------------------------------------------------------------
  // Publishing

  /** `PublishPropertyValueQueueItem` and `PublishEntityQueueItem`. */
  datatype ExchangeQueueItem =
    | PublishPropertyValue(item: PropertyItem, value: Value, expected: Value, pending: bool)
    | PublishEntity(routingKey: string, content: map<string, Value>)

  /** An exchange, by its position among the loaded exchanges. */
  type ExchangeId = nat

  /** One `exchange.publish(routing_key, content)` call. */
  datatype PublishCall = PublishCall(exchange: ExchangeId, routingKey: string, content: map<string, Value>)

  /** The calls a loop over the exchanges makes, in order. */
  function CallsTo(exchanges: seq<ExchangeId>, routingKey: string, content: map<string, Value>): (r: seq<PublishCall>)
    ensures |r| == |exchanges|
    ensures forall i :: 0 <= i < |r| ==> r[i] == PublishCall(exchanges[i], routingKey, content)
  {
    seq(|exchanges|, i requires 0 <= i < |exchanges| => PublishCall(exchanges[i], routingKey, content))
  }

  /** The updated-entity key of a property: the device-property key, or the channel-property key. */
  function PropertyUpdatedKey(item: PropertyItem): string
  {
    if item.channel.None? then EntityKey(Updated, DevicePropertyEntity) else EntityKey(Updated, ChannelPropertyEntity)
  }

  /** A device property and a channel property are published under different keys. */
  lemma PropertyUpdatedKeysDiffer(d: PropertyItem, c: PropertyItem)
    requires d.channel.None? && c.channel.Some?
    ensures PropertyUpdatedKey(d) != PropertyUpdatedKey(c)
    ensures PropertyUpdatedKey(d) == EntityRoutingKey(Tabled(DevicePropertyEntity), Updated).value
    ensures PropertyUpdatedKey(c) == EntityRoutingKey(Tabled(ChannelPropertyEntity), Updated).value
  {
    TabledClassKey(DevicePropertyEntity, Updated);
    TabledClassKey(ChannelPropertyEntity, Updated);
    if PropertyUpdatedKey(d) == PropertyUpdatedKey(c) {
      EntityKeysDistinct(Updated, DevicePropertyEntity, Updated, ChannelPropertyEntity);
    }
  }

  /** The content published for a stored value: the item's `to_array` with value, expected and pending. */
  function PropertyValueContent(item: PropertyItem, value: Value, expected: Value, pending: bool): (r: map<string, Value>)
    ensures r.Keys == ItemKeys + {"value", "expected", "pending"}
    ensures r["value"] == value && r["expected"] == expected && r["pending"] == VBool(pending)
    ensures forall k :: k in ItemKeys ==> r[k] == ToArray(item)[k]
  {
    ToArray(item)["value" := value]["expected" := expected]["pending" := VBool(pending)]
  }

  /** `Exchanges`: the loaded exchanges, the processing queue and the calls made to exchanges. */
  class ExchangesContainer {
    /** `__exchanges`. */
    const exchanges: seq<ExchangeId>
    /** `__queue`. */
    var queue: seq<ExchangeQueueItem>
    /** Every `publish` call made to an exchange, in order. */
    var published: seq<PublishCall>

    constructor(exchanges: seq<ExchangeId>)
      ensures this.exchanges == exchanges && queue == [] && published == []
    {
      this.exchanges := exchanges;
      queue := [];
      published := [];
    }

    /** `__publish_stored_value`: queue a stored property value for publishing. */
    method PublishStoredValue(item: PropertyItem, value: Value, expected: Value, pending: bool)
      modifies this`queue
      ensures queue == old(queue) + [PublishPropertyValue(item, value, expected, pending)]
    {
      queue := queue + [PublishPropertyValue(item, value, expected, pending)];
    }

    /** `__publish_entity`: queue a changed entity under its routing key; a class without one is dropped. */
    method PublishChangedEntity(c: EntityClass, action: Action, content: map<string, Value>)
      modifies this`queue
      ensures var key := EntityRoutingKey(c, action);
              queue == old(queue) + (if key.Some? then [PublishEntity(key.value, content)] else [])
    {
      var key := EntityRoutingKey(c, action);
      if key.Some? {
        queue := queue + [PublishEntity(key.value, content)];
      }
    }

    /** `__process_property_value_record`: every exchange gets the property's content under its updated key. */
    method ProcessPropertyValueRecord(item: PropertyItem, value: Value, expected: Value, pending: bool)
      modifies this`published
      ensures published == old(published) +
                CallsTo(exchanges, PropertyUpdatedKey(item), PropertyValueContent(item, value, expected, pending))
    {
      var routingKey := EntityKey(Updated, DevicePropertyEntity);
      if item.channel.Some? {
        routingKey := EntityKey(Updated, ChannelPropertyEntity);
      }
      var content := ToArray(item);
      content := content["value" := value];
      content := content["expected" := expected];
      content := content["pending" := VBool(pending)];
      PublishToAll(routingKey, content);
    }

    /** `__process_entity_record`: every exchange gets the entity's content under its key. */
    method ProcessEntityRecord(routingKey: string, content: map<string, Value>)
      modifies this`published
      ensures published == old(published) + CallsTo(exchanges, routingKey, content)
    {
      PublishToAll(routingKey, content);
    }

    /** The loop over `__exchanges` both record handlers share. */
    method PublishToAll(routingKey: string, content: map<string, Value>)
      modifies this`published
      ensures published == old(published) + CallsTo(exchanges, routingKey, content)
    {
      var i := 0;
      while i < |exchanges|
        invariant 0 <= i <= |exchanges|
        invariant published == old(published) + CallsTo(exchanges[..i], routingKey, content)
      {
        assert CallsTo(exchanges[..i + 1], routingKey, content) ==
               CallsTo(exchanges[..i], routingKey, content) + [PublishCall(exchanges[i], routingKey, content)];
        published := published + [PublishCall(exchanges[i], routingKey, content)];
        i := i + 1;
      }
      assert exchanges[..i] == exchanges;
    }

    /**
     * `process_received_message`, with its lookups going through the
     * repositories: the outcome is the one the repositories' items give,
     * and only the repository the routing key selects is loaded.
     */
    method ProcessReceivedMessage(received: Received, appOrigin: string,
                                  devices: PropertiesRepository, channels: PropertiesRepository)
      returns (r: Outcome)
      requires devices != channels && devices.Valid() && channels.Valid()
      modifies devices`cache, channels`cache
      ensures devices.Valid() && channels.Valid()
      ensures devices.Loaded() == old(devices.Loaded()) && channels.Loaded() == old(channels.Loaded())
      ensures r == ProcessReceived(received, appOrigin, old(devices.Loaded()), old(channels.Loaded()))
    {
      if received.Undecodable? {
        return Returned(false, None);
      }
      if received.NotObject? {
        return Raised;
      }
      var fields := received.fields;
      if !WellFormed(fields) {
        return Returned(false, None);
      }
      var routingKey, origin, data := fields["routing_key"].s, fields["origin"].s, fields["data"];
      if origin == appOrigin || !IsDataKey(routingKey) {
        return Returned(false, None);
      }
      if !data.VObject? {
        return Raised;
      }
      var item;
      if routingKey == DevicesPropertiesData {
        item := devices.GetPropertyByKey(Field(data.fields, "property"));
      } else {
        item := channels.GetPropertyByKey(Field(data.fields, "property"));
      }
      if item.Some? {
        r := Returned(true, Some(ExpectedValueEvent(item.value, Field(data.fields, "expected"))));
      } else {
        r := Returned(false, None);
      }
    }
  }

  /** Each exchange gets exactly one call when the exchanges are distinct. */
  lemma {:induction false} CallsReachEachExchange(es: seq<ExchangeId>, routingKey: string, content: map<string, Value>, e: ExchangeId)
    requires forall i, j :: 0 <= i < j < |es| ==> es[i] != es[j]
    ensures CountCalls(CallsTo(es, routingKey, content), e) == if e in es then 1 else 0
  {
    if |es| > 0 {
      CallsReachEachExchange(es[1..], routingKey, content, e);
      assert CallsTo(es, routingKey, content)[1..] == CallsTo(es[1..], routingKey, content);
      assert e in es <==> e == es[0] || e in es[1..];
    }
  }

  /** How many calls went to an exchange. */
  function CountCalls(calls: seq<PublishCall>, e: ExchangeId): nat
  {
    if |calls| == 0 then 0 else (if calls[0].exchange == e then 1 else 0) + CountCalls(calls[1..], e)
  }
}
