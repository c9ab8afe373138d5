// The WAMP exchange (miniserver_gateway/exchanges/wamp.py): the map of
// subscribed clients, the fan-out of published messages to them and the
// reply to a client's procedure call.

module WampExchange {
  import opened Common
  import opened PropertyCache
  import opened Exchanges

  /** A client's id (`get_id`). */
  type ClientId = string

  /** The WAMP messages the exchange sends (`MSG_EVENT`, `MSG_CALL_RESULT`, `MSG_CALL_ERROR`). */
  datatype WampMessage =
    /** An event on the exchange topic wrapping the routing key, the origin and the data. */
    | Event(routingKey: string, origin: string, data: map<string, Value>)
    /** The reply "accepted" to a call. */
    | CallResult(rpcId: string)
    /** The reply "Provided message could not be handled" to a call. */
    | CallError(rpcId: string)

  /** One `client.send_message` call. */
  datatype Sent = Sent(client: ClientId, message: WampMessage)

  /** No client id is subscribed twice (the subscribers are the keys of a dictionary). */
  predicate Distinct(ids: seq<ClientId>)
  {
    forall i, j :: 0 <= i < j < |ids| ==> ids[i] != ids[j]
  }

  /** `__subscribe` on the subscribers in insertion order: an absent id is added at the end. */
  function Subscribed(ids: seq<ClientId>, id: ClientId): (r: seq<ClientId>)
    ensures id in r && forall c :: c in ids ==> c in r
    ensures forall c :: c in r ==> c in ids || c == id
    ensures Distinct(ids) ==> Distinct(r)
  {
    if id in ids then ids else ids + [id]
  }

  /** `__unsubscribe` on the subscribers in insertion order: the id is removed, the others keep their order. */
  function Unsubscribed(ids: seq<ClientId>, id: ClientId): (r: seq<ClientId>)
    ensures id !in r
    ensures forall c :: c in r <==> c in ids && c != id
    ensures id !in ids ==> r == ids
  {
    if |ids| == 0 then []
    else if ids[0] == id then Unsubscribed(ids[1..], id)
    else [ids[0]] + Unsubscribed(ids[1..], id)
  }

  /** Unsubscribing keeps the subscribers distinct. */
  lemma {:induction false} UnsubscribedDistinct(ids: seq<ClientId>, id: ClientId)
    requires Distinct(ids)
    ensures Distinct(Unsubscribed(ids, id))
  {
    if |ids| > 0 {
      assert Distinct(ids[1..]) by {
        forall i, j | 0 <= i < j < |ids[1..]|
          ensures ids[1..][i] != ids[1..][j]
        {
          assert ids[1..][i] == ids[i + 1] && ids[1..][j] == ids[j + 1];
        }
      }
      UnsubscribedDistinct(ids[1..], id);
      if ids[0] != id {
        assert ids[0] !in ids[1..];
        var rest := Unsubscribed(ids[1..], id);
        assert ids[0] !in rest;
        assert Unsubscribed(ids, id) == [ids[0]] + rest;
      }
    }
  }

  /** Subscribing twice is subscribing once. */
  lemma SubscribeIdempotent(ids: seq<ClientId>, id: ClientId)
    ensures Subscribed(Subscribed(ids, id), id) == Subscribed(ids, id)
  {
  }

  /** Unsubscribing a client that just subscribed restores the subscribers. */
  lemma {:induction false} SubscribeThenUnsubscribe(ids: seq<ClientId>, id: ClientId)
    requires id !in ids
    ensures Unsubscribed(Subscribed(ids, id), id) == ids
  {
    UnsubscribedAppend(ids, id);
  }

  lemma {:induction false} UnsubscribedAppend(ids: seq<ClientId>, id: ClientId)
    requires id !in ids
    ensures Unsubscribed(ids + [id], id) == ids
  {
    if |ids| > 0 {
      assert (ids + [id])[1..] == ids[1..] + [id];
      UnsubscribedAppend(ids[1..], id);
    } else {
      assert Unsubscribed([id], id) == Unsubscribed([], id);
    }
  }

  /** The events `publish` sends: one to each subscriber, in order. */
  function EventsFor(ids: seq<ClientId>, message: WampMessage): (r: seq<Sent>)
    ensures |r| == |ids|
    ensures forall i :: 0 <= i < |r| ==> r[i] == Sent(ids[i], message)
  {
    seq(|ids|, i requires 0 <= i < |ids| => Sent(ids[i], message))
  }

  /** How many messages went to a client. */
  function SentTo(sent: seq<Sent>, c: ClientId): nat
  {
    if |sent| == 0 then 0 else (if sent[0].client == c then 1 else 0) + SentTo(sent[1..], c)
  }

  /** Every subscriber gets exactly one event, and no one else gets any. */
  lemma {:induction false} EachSubscriberOnce(ids: seq<ClientId>, message: WampMessage, c: ClientId)
    requires Distinct(ids)
    ensures SentTo(EventsFor(ids, message), c) == if c in ids then 1 else 0
  {
    if |ids| > 0 {
      EachSubscriberOnce(ids[1..], message, c);
      assert EventsFor(ids, message)[1..] == EventsFor(ids[1..], message);
      assert c in ids <==> c == ids[0] || c in ids[1..];
    }
  }

  /**
   * An event the gateway publishes, when a client sends it back, is refused:
   * it carries the gateway's own origin.
   */
  lemma EchoRefused(routingKey: string, data: map<string, Value>, appOrigin: string,
                    devices: seq<PropertyItem>, channels: seq<PropertyItem>)
    ensures var echo := JsonObject(map["routing_key" := VText(routingKey), "origin" := VText(appOrigin),
                                       "data" := VObject(data)]);
            ProcessReceived(echo, appOrigin, devices, channels) == Returned(false, None)
  {
    var echo := map["routing_key" := VText(routingKey), "origin" := VText(appOrigin), "data" := VObject(data)];
    assert WellFormed(echo);
    assert echo["origin"].s == appOrigin;
  }

  /** The reply to a call: a result exactly when the message was accepted, an error otherwise or on a raise. */
  function Reply(outcome: Outcome, rpcId: string): (r: WampMessage)
    ensures r.CallResult? <==> outcome.Returned? && outcome.accepted
    ensures !r.Event? && r.rpcId == rpcId
  {
    if outcome.Returned? && outcome.accepted then CallResult(rpcId) else CallError(rpcId)
  }

  /** `WampExchange`: the subscribed clients and every message sent to a client. */
  class WampExchanger {
    /** `__subscribers`, in insertion order. */
    var subscribers: seq<ClientId>
    /** Every `send_message` call, in order. */
    var outbox: seq<Sent>
    /** `APP_ORIGIN`. */
    const appOrigin: string

    predicate Valid()
      reads this
    {
      Distinct(subscribers)
    }

    constructor(appOrigin: string)
      ensures Valid() && subscribers == [] && outbox == [] && this.appOrigin == appOrigin
    {
      subscribers := [];
      outbox := [];
      this.appOrigin := appOrigin;
    }

    /** `__subscribe`. */
    method Subscribe(id: ClientId)
      requires Valid()
      modifies this`subscribers
      ensures Valid() && subscribers == Subscribed(old(subscribers), id)
    {
      if id !in subscribers {
        subscribers := subscribers + [id];
      }
    }

    /** `__unsubscribe`. */
    method Unsubscribe(id: ClientId)
      requires Valid()
      modifies this`subscribers
      ensures Valid() && subscribers == Unsubscribed(old(subscribers), id)
    {
      UnsubscribedDistinct(subscribers, id);
      subscribers := Unsubscribed(subscribers, id);
    }

    /** `publish`: one event with the gateway's origin to each subscriber. */
    method Publish(routingKey: string, data: map<string, Value>)
      modifies this`outbox
      ensures outbox == old(outbox) + EventsFor(subscribers, Event(routingKey, appOrigin, data))
    {
      var message := Event(routingKey, appOrigin, data);
      var i := 0;
      while i < |subscribers|
        invariant 0 <= i <= |subscribers|
        invariant outbox == old(outbox) + EventsFor(subscribers[..i], message)
      {
        assert EventsFor(subscribers[..i + 1], message) ==
               EventsFor(subscribers[..i], message) + [Sent(subscribers[i], message)];
        outbox := outbox + [Sent(subscribers[i], message)];
        i := i + 1;
      }
      assert subscribers[..i] == subscribers;
    }

    /** `__receive`: process the call's message and reply to the calling client. */
    method Receive(container: ExchangesContainer, devices: PropertiesRepository, channels: PropertiesRepository,
                   client: ClientId, rpcId: string, received: Received)
      returns (outcome: Outcome)
      requires devices != channels && devices.Valid() && channels.Valid()
      modifies this`outbox, devices`cache, channels`cache
      ensures devices.Valid() && channels.Valid()
      ensures devices.Loaded() == old(devices.Loaded()) && channels.Loaded() == old(channels.Loaded())
      ensures outcome == ProcessReceived(received, appOrigin, old(devices.Loaded()), old(channels.Loaded()))
      ensures outbox == old(outbox) + [Sent(client, Reply(outcome, rpcId))]
    {
      outcome := container.ProcessReceivedMessage(received, appOrigin, devices, channels);
      if outcome.Returned? && outcome.accepted {
        outbox := outbox + [Sent(client, CallResult(rpcId))];
      } else {
        outbox := outbox + [Sent(client, CallError(rpcId))];
      }
    }
  }
}
