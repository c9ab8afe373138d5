// Routing keys of the exchanges (miniserver_gateway/exchanges/types.py) and
// the choice of the key under which a changed database entity is published
// (miniserver_gateway/exchanges/utils.py).

module ExchangeRouting {
  import opened Common

  /** The six entity classes that have routing keys (db/models.py). */
  datatype EntityKind =
    | DeviceEntity
    | DevicePropertyEntity
    | DeviceConfigurationEntity
    | ChannelEntity
    | ChannelPropertyEntity
    | ChannelConfigurationEntity

  /** `EntityChangedType`. */
  datatype Action = Created | Updated | Deleted

  /** The order of the entries of each mapping table, which is the order the lookup tries them in. */
  const TableOrder: seq<EntityKind> :=
    [DeviceEntity, DevicePropertyEntity, DeviceConfigurationEntity,
     ChannelEntity, ChannelPropertyEntity, ChannelConfigurationEntity]

  /** `DEVICES_PROPERTIES_DATA_ROUTING_KEY`. */
  const DevicesPropertiesData: string := "fb.bus.data.device.property"

  /** `CHANNELS_PROPERTIES_DATA_ROUTING_KEY`. */
  const ChannelsPropertiesData: string := "fb.bus.data.channel.property"

  /** The action's segment of an entity key. */
  function ActionName(a: Action): string
  {
    match a
    case Created => "created"
    case Updated => "updated"
    case Deleted => "deleted"
  }

  /** The entity's segment of an entity key. */
  function KindName(k: EntityKind): string
  {
    match k
    case DeviceEntity => "device"
    case DevicePropertyEntity => "device.property"
    case DeviceConfigurationEntity => "device.configuration"
    case ChannelEntity => "channel"
    case ChannelPropertyEntity => "channel.property"
    case ChannelConfigurationEntity => "channel.configuration"
  }

  /**
   * The entity routing keys of `RoutingKeys`: "fb.bus.entity.", the action,
   * a dot and the entity, e.g. "fb.bus.entity.updated.channel.property".
   */
  function EntityKey(a: Action, k: EntityKind): (r: string)
    ensures |r| == 22 + |KindName(k)|
    ensures r[..14] == "fb.bus.entity." && r[14..21] == ActionName(a) && r[21] == '.' && r[22..] == KindName(k)
  {
    "fb.bus.entity." + ActionName(a) + "." + KindName(k)
  }

  /** Every entity has a segment of its own length. */
  lemma KindNameInjective(k: EntityKind, j: EntityKind)
    requires KindName(k) == KindName(j)
    ensures k == j
  {
    assert |KindName(k)| == |KindName(j)|;
  }

  /** Every action has a segment of its own first letter. */
  lemma ActionNameInjective(a: Action, b: Action)
    requires ActionName(a) == ActionName(b)
    ensures a == b
  {
    assert ActionName(a)[0] == ActionName(b)[0];
  }

  /** No two actions or entities share a routing key: within one table the keys are pairwise distinct. */
  lemma EntityKeysDistinct(a: Action, k: EntityKind, b: Action, j: EntityKind)
    requires EntityKey(a, k) == EntityKey(b, j)
    ensures a == b && k == j
  {
    ActionNameInjective(a, b);
    KindNameInjective(k, j);
  }

  /** The data keys are not entity keys. */
  lemma DataKeysAreNotEntityKeys(a: Action, k: EntityKind)
    ensures EntityKey(a, k) != DevicesPropertiesData && EntityKey(a, k) != ChannelsPropertiesData
    ensures DevicesPropertiesData != ChannelsPropertiesData
  {
    assert EntityKey(a, k)[..14][7] == 'e';
    assert DevicesPropertiesData[7] == 'd' && ChannelsPropertiesData[7] == 'd';
    assert DevicesPropertiesData[12] == 'd' && ChannelsPropertiesData[12] == 'c';
  }

  /**
   * A model class, by the table entries it is a subclass of (`issubclass`
   * also holds for the class itself). The six tabled classes derive from
   * the ORM base directly, so each is a subclass of itself alone; every
   * other model class is a subclass of none of them.
   */
  datatype EntityClass = EntityClass(name: string, bases: set<EntityKind>)

  /** Every entity class has an entry in the tables. */
  lemma InTableOrder(k: EntityKind)
    ensures k in TableOrder
  {
    match k
    case DeviceEntity => assert TableOrder[0] == k;
    case DevicePropertyEntity => assert TableOrder[1] == k;
    case DeviceConfigurationEntity => assert TableOrder[2] == k;
    case ChannelEntity => assert TableOrder[3] == k;
    case ChannelPropertyEntity => assert TableOrder[4] == k;
    case ChannelConfigurationEntity => assert TableOrder[5] == k;
  }

  /** One of the six tabled classes. */
  function Tabled(k: EntityKind): EntityClass
  {
    EntityClass(KindName(k), {k})
  }

  /** The first entry of the table order the class is a subclass of. */
  function FirstBase(order: seq<EntityKind>, c: EntityClass): (r: Option<EntityKind>)
    ensures r.Some? ==> r.value in c.bases && r.value in order
    ensures r.None? ==> forall i :: 0 <= i < |order| ==> order[i] !in c.bases
  {
    if |order| == 0 then None
    else if order[0] in c.bases then Some(order[0])
    else FirstBase(order[1..], c)
  }

  /** `get_entity_routing_key`: the key of the first table entry the class is a subclass of, or None. */
  function EntityRoutingKey(c: EntityClass, a: Action): (r: Option<string>)
    ensures r.Some? ==> exists k :: k in c.bases && r.value == EntityKey(a, k)
    ensures r.None? ==> forall k :: k in TableOrder ==> k !in c.bases
  {
    match FirstBase(TableOrder, c)
    case Some(k) => Some(EntityKey(a, k))
    case None => None
  }

  /** Each of the six classes gets its own key for every action. */
  lemma TabledClassKey(k: EntityKind, a: Action)
    ensures EntityRoutingKey(Tabled(k), a) == Some(EntityKey(a, k))
  {
    InTableOrder(k);
    var r := FirstBase(TableOrder, Tabled(k));
    assert r.Some?;
  }

  /** A class outside the tables (connectors, triggers, controls, ...) has no key. */
  lemma UntabledClassKey(c: EntityClass, a: Action)
    requires c.bases == {}
    ensures EntityRoutingKey(c, a) == None
  {
  }

  /** A class that is a subclass of several entries resolves to the earliest of them in table order. */
  lemma {:induction false} FirstBaseWins(order: seq<EntityKind>, c: EntityClass, i: nat)
    requires i < |order| && order[i] in c.bases
    requires forall j :: 0 <= j < i ==> order[j] !in c.bases
    ensures FirstBase(order, c) == Some(order[i])
  {
    if i > 0 {
      FirstBaseWins(order[1..], c, i - 1);
    }
  }

  /** A key found for a class always belongs to the requested action and to a class it derives from. */
  lemma RoutingKeyOfBase(c: EntityClass, a: Action)
    ensures EntityRoutingKey(c, a).Some? <==> c.bases != {}
    ensures EntityRoutingKey(c, a).Some? ==> exists k :: k in c.bases && EntityRoutingKey(c, a) == Some(EntityKey(a, k))
  {
    if c.bases != {} {
      var k :| k in c.bases;
      InTableOrder(k);
    }
  }
}
