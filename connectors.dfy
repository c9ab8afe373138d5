// The connectors container (miniserver_gateway/connectors/connectors.py):
// the settings lookup that names a connector's class, the queue that
// connectors and storage events feed, the forwarding of expected values to
// every connector, and the allow-listed attribute update applied to stored
// entities.

module Connectors {
  import opened Common
  import opened GatewayTypes
  import opened PropertyCache
  import opened ConnectorQueue

  // ---------------------------------------------------------------------------
  // ConnectorsSettings

  /** Whether a settings entry is for the given connector type (`connector.get("type") == t`). */
  predicate OfType(entry: map<string, string>, t: string)
  {
    "type" in entry && entry["type"] == t
  }

  /** `get_class_by_type`: the "class" of the first entry of the type, or None. */
  function ClassByType(config: seq<map<string, string>>, t: string): (r: Option<string>)
    ensures r.Some? ==> exists i :: 0 <= i < |config| && OfType(config[i], t)
  {
    if |config| == 0 then None
    else if OfType(config[0], t) then (if "class" in config[0] then Some(config[0]["class"]) else None)
    else ClassByType(config[1..], t)
  }

  /** The first entry of the type decides: its class, or None when it names none. */
  lemma {:induction false} ClassByTypeFirst(config: seq<map<string, string>>, t: string, k: nat)
    requires k < |config| && OfType(config[k], t)
    requires forall j :: 0 <= j < k ==> !OfType(config[j], t)
    ensures ClassByType(config, t) == if "class" in config[k] then Some(config[k]["class"]) else None
  {
    if k > 0 {
      ClassByTypeFirst(config[1..], t, k - 1);
    }
  }

  /** With no entry of the type there is no class. */
  lemma {:induction false} ClassByTypeMissing(config: seq<map<string, string>>, t: string)
    requires forall j :: 0 <= j < |config| ==> !OfType(config[j], t)
    ensures ClassByType(config, t) == None
  {
    if |config| > 0 {
      ClassByTypeMissing(config[1..], t);
    }
  }

  // ---------------------------------------------------------------------------
  // Updating a stored entity

  /** A stored entity (device, channel property or configuration) by its columns. */
  class Entity {
    var attributes: map<string, Value>

    constructor(attributes: map<string, Value>)
      ensures this.attributes == attributes
    {
      this.attributes := attributes;
    }
  }

  /** The allow-list of `__update_device_entity`. */
  const DeviceAttributes: seq<string> :=
    ["state", "hardware_manufacturer", "hardware_model", "hardware_version", "mac_address",
     "firmware_manufacturer", "firmware_version"]

  /** The allow-list of `__update_channel_property_entity`. */
  const PropertyAttributes: seq<string> := ["settable", "queryable", "data_type", "unit", "format"]

  /** The allow-list of both configuration updates. */
  const ConfigurationAttributes: seq<string> := ["default", "value"]

  /** The attributes `__update_entity` sets: allowed keys whose value differs from the entity's. */
  function Changes(attributes: map<string, Value>, allowed: seq<string>, kwargs: map<string, Value>): map<string, Value>
    requires forall k :: k in allowed ==> k in attributes
  {
    map k | k in kwargs && k in allowed && !PyEq(attributes[k], kwargs[k]) :: kwargs[k]
  }

  /**
   * Applying the changes leaves every attribute outside the allow-list as it
   * was, gives every allowed argument a value equal to it, and changes
   * nothing when there are no changes.
   */
  lemma ChangesAgree(attributes: map<string, Value>, allowed: seq<string>, kwargs: map<string, Value>)
    requires forall k :: k in allowed ==> k in attributes
    ensures var after := attributes + Changes(attributes, allowed, kwargs);
            after.Keys == attributes.Keys &&
            (forall k :: k in attributes && k !in allowed ==> after[k] == attributes[k]) &&
            (forall k :: k in kwargs && k in allowed ==> PyEq(after[k], kwargs[k])) &&
            (|Changes(attributes, allowed, kwargs)| == 0 ==> after == attributes)
  {
    var c := Changes(attributes, allowed, kwargs);
    var after := attributes + c;
    forall k | k in kwargs && k in allowed
      ensures PyEq(after[k], kwargs[k])
    {
      if k in c {
        assert after[k] == kwargs[k];
      }
    }
    if |c| == 0 {
      assert c == map[];
      assert after == attributes;
    }
  }

  /** Updating twice with the same arguments: the second update changes nothing. */
  lemma ChangesIdempotent(attributes: map<string, Value>, allowed: seq<string>, kwargs: map<string, Value>)
    requires forall k :: k in allowed ==> k in attributes
    ensures var after := attributes + Changes(attributes, allowed, kwargs);
            (forall k :: k in allowed ==> k in after) && Changes(after, allowed, kwargs) == map[]
  {
    var after := attributes + Changes(attributes, allowed, kwargs);
    ChangesAgree(attributes, allowed, kwargs);
    assert forall k :: k in kwargs && k in allowed ==> PyEq(after[k], kwargs[k]);
    assert Changes(after, allowed, kwargs).Keys == {};
  }

  /**
   * `__update_entity`: set the allowed arguments that differ from the
   * entity's values; True exactly when something was set.
   */
  method UpdateEntity(entity: Entity, allowed: seq<string>, kwargs: map<string, Value>) returns (changed: bool)
    requires forall k :: k in allowed ==> k in entity.attributes
    modifies entity
    ensures entity.attributes == old(entity.attributes) + Changes(old(entity.attributes), allowed, kwargs)
    ensures changed <==> |Changes(old(entity.attributes), allowed, kwargs)| > 0
  {
    var updates: map<string, Value> := map[];
    var todo := kwargs.Keys;
    while todo != {}
      invariant todo <= kwargs.Keys
      invariant forall k :: k in updates <==>
                              (k in kwargs && k !in todo && k in allowed && !PyEq(entity.attributes[k], kwargs[k]))
      invariant forall k :: k in updates ==> updates[k] == kwargs[k]
      decreases todo
    {
      var key :| key in todo;
      if key in allowed && !PyEq(entity.attributes[key], kwargs[key]) {
        updates := updates[key := kwargs[key]];
      }
      todo := todo - {key};
    }
    assert updates == Changes(entity.attributes, allowed, kwargs);
    if |updates| > 0 {
      entity.attributes := entity.attributes + updates;
      return true;
    }
    return false;
  }

  /** `__update_device_entity`. */
  method UpdateDeviceEntity(device: Entity, kwargs: map<string, Value>) returns (changed: bool)
    requires forall k :: k in DeviceAttributes ==> k in device.attributes
    modifies device
    ensures device.attributes == old(device.attributes) + Changes(old(device.attributes), DeviceAttributes, kwargs)
    ensures changed <==> |Changes(old(device.attributes), DeviceAttributes, kwargs)| > 0
  {
    changed := UpdateEntity(device, DeviceAttributes, kwargs);
  }

  /** `__update_channel_property_entity`. */
  method UpdateChannelPropertyEntity(property: Entity, kwargs: map<string, Value>) returns (changed: bool)
    requires forall k :: k in PropertyAttributes ==> k in property.attributes
    modifies property
    ensures property.attributes == old(property.attributes) + Changes(old(property.attributes), PropertyAttributes, kwargs)
    ensures changed <==> |Changes(old(property.attributes), PropertyAttributes, kwargs)| > 0
  {
    changed := UpdateEntity(property, PropertyAttributes, kwargs);
  }

  /** `__update_device_configuration_entity` and `__update_channel_configuration_entity`. */
  method UpdateConfigurationEntity(configuration: Entity, kwargs: map<string, Value>) returns (changed: bool)
    requires forall k :: k in ConfigurationAttributes ==> k in configuration.attributes
    modifies configuration
    ensures configuration.attributes ==
              old(configuration.attributes) + Changes(old(configuration.attributes), ConfigurationAttributes, kwargs)
    ensures changed <==> |Changes(old(configuration.attributes), ConfigurationAttributes, kwargs)| > 0
  {
    changed := UpdateEntity(configuration, ConfigurationAttributes, kwargs);
  }

  /** The device update never touches the device's identity or its key. */
  lemma DeviceUpdateKeepsIdentity(attributes: map<string, Value>, kwargs: map<string, Value>)
    requires forall k :: k in DeviceAttributes ==> k in attributes
    requires "identifier" in attributes && "key" in attributes
    ensures var after := attributes + Changes(attributes, DeviceAttributes, kwargs);
            after["identifier"] == attributes["identifier"] && after["key"] == attributes["key"]
  {
    ChangesAgree(attributes, DeviceAttributes, kwargs);
  }

  // ---------------------------------------------------------------------------
  // Expected values

  /**
   * The expected value passed on to connectors: "toggle" for a boolean
   * property goes as it is, every other value is normalised.
   */
  function ForwardedExpected(item: PropertyItem, expected: Value, normalize: (PropertyItem, Value) -> Value): (r: Value)
    ensures item.dataType == Some(Boolean) && expected == VText("toggle") ==> r == expected
    ensures item.dataType != Some(Boolean) || expected != VText("toggle") ==> r == normalize(item, expected)
  {
    if item.dataType != Some(Boolean) || expected != VText("toggle") then normalize(item, expected) else expected
  }

  /** `ConnectorPropertyValueEvent`: a property's new and previous values, normalised. */
  datatype PropertyValueEvent = PropertyValueEvent(item: PropertyItem, actual: Value, previous: Value)

  /** A connector, by its position among the loaded connectors. */
  type ConnectorId = nat

  /** One `connector.publish(property_id, expected)` call. */
  datatype PublishCall = PublishCall(connector: ConnectorId, propertyId: Uuid, expected: Value)

  /** The calls the loop over the connectors makes, in order. */
  function CallsTo(connectors: seq<ConnectorId>, propertyId: Uuid, expected: Value): (r: seq<PublishCall>)
    ensures |r| == |connectors|
    ensures forall i :: 0 <= i < |r| ==> r[i] == PublishCall(connectors[i], propertyId, expected)
  {
    seq(|connectors|, i requires 0 <= i < |connectors| => PublishCall(connectors[i], propertyId, expected))
  }

  /** `Connectors`: the loaded connectors, the processing queue and the calls made to connectors. */
  class ConnectorsContainer {
    /** `__connectors`. */
    const connectors: seq<ConnectorId>
    /** `__queue`. */
    var queue: seq<QueueItem>
    /** Every `publish` call made to a connector, in order. */
    var published: seq<PublishCall>

    constructor(connectors: seq<ConnectorId>)
      ensures this.connectors == connectors && queue == [] && published == []
    {
      this.connectors := connectors;
      queue := [];
      published := [];
    }

    /** `add_or_edit_device`. */
    method AddOrEditDevice(connectorId: Uuid, deviceId: Uuid, identifier: string, state: DeviceState,
                           kwargs: map<string, Value>)
      modifies this`queue
      ensures queue == old(queue) + [CreateOrUpdateDevice(connectorId, deviceId, identifier, state, kwargs)]
    {
      queue := queue + [CreateOrUpdateDevice(connectorId, deviceId, identifier, state, kwargs)];
    }

    /** `add_or_edit_device_configuration`. */
    method AddOrEditDeviceConfiguration(deviceId: Uuid, configurationId: Uuid, identifier: string,
                                        dataType: DataType, kwargs: map<string, Value>)
      modifies this`queue
      ensures queue == old(queue) +
                [CreateOrUpdateDeviceConfiguration(deviceId, configurationId, identifier, dataType, kwargs)]
    {
      queue := queue + [CreateOrUpdateDeviceConfiguration(deviceId, configurationId, identifier, dataType, kwargs)];
    }

    /** `delete_device_configuration`. */
    method DeleteDeviceConfigurationItem(configurationId: Uuid)
      modifies this`queue
      ensures queue == old(queue) + [DeleteDeviceConfiguration(configurationId)]
    {
      queue := queue + [DeleteDeviceConfiguration(configurationId)];
    }

    /** `add_or_edit_channel_property`. */
    method AddOrEditChannelProperty(deviceId: Uuid, channelId: Uuid, channelIdentifier: string,
                                    propertyId: Uuid, propertyIdentifier: string, kwargs: map<string, Value>)
      modifies this`queue
      ensures queue == old(queue) + [CreateOrUpdateChannelProperty(deviceId, channelId, channelIdentifier,
                                                                   propertyId, propertyIdentifier, kwargs)]
    {
      queue := queue + [CreateOrUpdateChannelProperty(deviceId, channelId, channelIdentifier,
                                                      propertyId, propertyIdentifier, kwargs)];
    }

    /** `delete_channel_property`. */
    method DeleteChannelPropertyItem(propertyId: Uuid)
      modifies this`queue
      ensures queue == old(queue) + [DeleteChannelProperty(propertyId)]
    {
      queue := queue + [DeleteChannelProperty(propertyId)];
    }

    /** `add_or_edit_channel_configuration`. */
    method AddOrEditChannelConfiguration(deviceId: Uuid, channelId: Uuid, configurationId: Uuid,
                                         identifier: string, dataType: DataType, kwargs: map<string, Value>)
      modifies this`queue
      ensures queue == old(queue) + [CreateOrUpdateChannelConfiguration(deviceId, channelId, configurationId,
                                                                        identifier, dataType, kwargs)]
    {
      queue := queue + [CreateOrUpdateChannelConfiguration(deviceId, channelId, configurationId,
                                                           identifier, dataType, kwargs)];
    }

    /** `delete_channel_configuration`. */
    method DeleteChannelConfigurationItem(configurationId: Uuid)
      modifies this`queue
      ensures queue == old(queue) + [DeleteChannelConfiguration(configurationId)]
    {
      queue := queue + [DeleteChannelConfiguration(configurationId)];
    }

    /** `__publish_storage_value_event`: queue an expected-value update, unless there is no expected value. */
    method PublishStorageValueEvent(item: PropertyItem, expected: Value)
      modifies this`queue
      ensures queue == old(queue) + (if expected == VNull then [] else [UpdatePropertyExpected(item, expected)])
    {
      if expected == VNull {
        return;
      }
      PublishValueEvent(item, expected);
    }

    /** `__publish_trigger_value_event`: queue an expected-value update. */
    method PublishTriggerValueEvent(item: PropertyItem, expected: Value)
      modifies this`queue
      ensures queue == old(queue) + [UpdatePropertyExpected(item, expected)]
    {
      PublishValueEvent(item, expected);
    }

    /** `__publish_value_event`. */
    method PublishValueEvent(item: PropertyItem, expected: Value)
      modifies this`queue
      ensures queue == old(queue) + [UpdatePropertyExpected(item, expected)]
    {
      queue := queue + [UpdatePropertyExpected(item, expected)];
    }

    /**
     * `__process_property_expected_record`: every loaded connector gets the
     * property's id and the forwarded expected value, once each, in order.
     */
    method ProcessPropertyExpectedRecord(item: PropertyItem, expected: Value,
                                         normalize: (PropertyItem, Value) -> Value)
      modifies this`published
      ensures published == old(published) + CallsTo(connectors, item.id, ForwardedExpected(item, expected, normalize))
    {
      var value := expected;
      if item.dataType != Some(Boolean) || expected != VText("toggle") {
        value := normalize(item, expected);
      }
      var i := 0;
      while i < |connectors|
        invariant 0 <= i <= |connectors|
        invariant published == old(published) + CallsTo(connectors[..i], item.id, value)
      {
        assert CallsTo(connectors[..i + 1], item.id, value) ==
               CallsTo(connectors[..i], item.id, value) + [PublishCall(connectors[i], item.id, value)];
        published := published + [PublishCall(connectors[i], item.id, value)];
        i := i + 1;
      }
      assert connectors[..i] == connectors;
    }
  }

  /** Each loaded connector is called exactly as often as it appears among the connectors: once. */
  lemma {:induction false} CallsReachEachConnector(cs: seq<ConnectorId>, propertyId: Uuid, expected: Value, c: ConnectorId)
    requires forall i, j :: 0 <= i < j < |cs| ==> cs[i] != cs[j]
    ensures CountCalls(CallsTo(cs, propertyId, expected), c) == if c in cs then 1 else 0
  {
    if |cs| > 0 {
      CallsReachEachConnector(cs[1..], propertyId, expected, c);
      assert CallsTo(cs, propertyId, expected)[1..] == CallsTo(cs[1..], propertyId, expected);
      assert c in cs <==> c == cs[0] || c in cs[1..];
    }
  }

  /** How many calls went to a connector. */
  function CountCalls(calls: seq<PublishCall>, c: ConnectorId): nat
  {
    if |calls| == 0 then 0 else (if calls[0].connector == c then 1 else 0) + CountCalls(calls[1..], c)
  }

  /**
   * `send_device_property_to_storage` and `send_channel_property_to_storage`:
   * the event dispatched for a property the repository knows, with both
   * values normalised; nothing for an unknown property.
   */
  method SendPropertyToStorage(repository: PropertiesRepository, propertyId: Uuid, actual: Value, previous: Value,
                               normalize: (PropertyItem, Value) -> Value)
    returns (event: Option<PropertyValueEvent>)
    requires repository.Valid()
    modifies repository`cache
    ensures repository.Valid() && repository.cache == Some(old(repository.Loaded()))
    ensures var item := ItemWithId(old(repository.Loaded()), propertyId);
            event == if item.Some?
                     then Some(PropertyValueEvent(item.value, normalize(item.value, actual), normalize(item.value, previous)))
                     else None
  {
    var item := repository.GetPropertyById(propertyId);
    if item.Some? {
      event := Some(PropertyValueEvent(item.value, normalize(item.value, actual), normalize(item.value, previous)));
    } else {
      event := None;
    }
  }
}
