// The records connectors put on the connectors' processing queue
// (miniserver_gateway/connectors/queue.py). Each is immutable and every
// getter returns a constructor argument, which is what a datatype field is;
// the keyword arguments a connector passes are kept as `kwargs`.

module ConnectorQueue {
  import opened Common
  import opened GatewayTypes
  import opened PropertyCache
  import EntityKeyHash

  datatype QueueItem =
    | CreateOrUpdateDevice(connectorId: Uuid, deviceId: Uuid, identifier: string, state: DeviceState,
                           kwargs: map<string, Value>)
    | CreateOrUpdateDeviceProperty(deviceId: Uuid, propertyId: Uuid, propertyIdentifier: string,
                                   kwargs: map<string, Value>)
    | CreateOrUpdateChannelProperty(deviceId: Uuid, channelId: Uuid, channelIdentifier: string,
                                    propertyId: Uuid, propertyIdentifier: string, kwargs: map<string, Value>)
    | DeleteDeviceProperty(propertyId: Uuid)
    | DeleteChannelProperty(propertyId: Uuid)
    | UpdatePropertyExpected(item: PropertyItem, expected: Value)
    | CreateOrUpdateDeviceConfiguration(deviceId: Uuid, configurationId: Uuid, configurationIdentifier: string,
                                        dataType: DataType, kwargs: map<string, Value>)
    | CreateOrUpdateChannelConfiguration(deviceId: Uuid, channelId: Uuid, configurationId: Uuid,
                                         configurationIdentifier: string, dataType: DataType,
                                         kwargs: map<string, Value>)
    | DeleteDeviceConfiguration(configurationId: Uuid)
    | DeleteChannelConfiguration(configurationId: Uuid)

  /** The items that carry keyword arguments. */
  predicate HasAttributes(q: QueueItem)
  {
    q.CreateOrUpdateDevice? || q.CreateOrUpdateDeviceProperty? || q.CreateOrUpdateChannelProperty? ||
    q.CreateOrUpdateDeviceConfiguration? || q.CreateOrUpdateChannelConfiguration?
  }

  /** A device state as it travels in an attribute dictionary: its enum value. */
  function StateValue(s: DeviceState): Value
  {
    VText(DeviceStateValue(s))
  }

  /**
   * `attributes`: a device item's keyword arguments with "state" set to its
   * state, whatever the arguments said; any other item's keyword arguments
   * as given.
   */
  function Attributes(q: QueueItem): (r: map<string, Value>)
    requires HasAttributes(q)
    ensures q.CreateOrUpdateDevice? ==>
              r.Keys == q.kwargs.Keys + {"state"} && r["state"] == StateValue(q.state) &&
              forall k :: k in q.kwargs && k != "state" ==> r[k] == q.kwargs[k]
    ensures !q.CreateOrUpdateDevice? ==> r == q.kwargs
  {
    if q.CreateOrUpdateDevice? then q.kwargs["state" := StateValue(q.state)] else q.kwargs
  }

  /**
   * `key` of a property item: the "key" argument when one was given,
   * otherwise a fresh entity key for the current time in microseconds.
   */
  function Key(q: QueueItem, nowMicros: nat): (r: Value)
    requires q.CreateOrUpdateDeviceProperty? || q.CreateOrUpdateChannelProperty?
    ensures "key" in q.kwargs ==> r == q.kwargs["key"]
    ensures "key" !in q.kwargs ==> r.VText? && EntityKeyHash.DecodedValue(r.s) == Some(nowMicros)
  {
    EntityKeyHash.PowPositive(EntityKeyHash.MaxLen - 1);
    if "key" in q.kwargs then q.kwargs["key"]
    else
      EntityKeyHash.EncodeDecodeRoundTrip(nowMicros);
      VText(EntityKeyHash.EncodedKey(nowMicros))
  }
}
