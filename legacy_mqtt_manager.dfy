/** The MQTT side of the older C# runtime (TwoMQTT/Core/Managers/MQTTManager.cs), a
    base class whose subclasses publish through the deduplication gate, one pair at
    a time or a list at once, and override the hooks for subscriptions and discovery.
    The naming helpers it carries are the rules of Naming.Generator built from its
    options' topic prefix and discovery name. */
module LegacyMqttManager {
  import opened Text
  import opened Dedup
  import Naming
  import opened ManagerOptions

  class Manager {
    const opts: Options
    /** The overridable hooks; None stands for a subclass returning null. */
    const subscriptions: Option<seq<string>>
    const discoveries: Option<seq<DiscoveryEntry>>
    /** The JSON serialisation of a discovery record, left opaque. */
    const serialize: Naming.Discovery -> string

    /** KnownMessages: the last payload published through the gate, per topic. */
    var known: map<string, string>
    var published: seq<Message>
    var subscribed: seq<string>
    var connection: Option<ClientOptions>
    /** Every offer made to the gate, and the messages it let through. */
    ghost var offered: seq<Offer>
    ghost var gated: seq<Message>
    /** The messages sent straight to the client: availability and discovery. */
    ghost var direct: seq<Message>

    /** The cache is the fold of the gate over every offer so far, the gated messages
        are what that fold sent, every offer is retained and checked, and the client's
        log numbers the gated and the direct messages together and, on every topic
        no direct message went to, carries the gated payloads in order. */
    ghost predicate Valid()
      reads this
    {
      known == CacheAfter(map[], offered) && gated == Sent(map[], offered) &&
      (forall i :: 0 <= i < |offered| ==> offered[i].retained && offered[i].checkDuplicate) &&
      AgreesOffDirectTopics(published, gated, direct)
    }

    constructor(opts: Options, subscriptions: Option<seq<string>>, discoveries: Option<seq<DiscoveryEntry>>,
                serialize: Naming.Discovery -> string)
      ensures Valid()
      ensures this.opts == opts && this.subscriptions == subscriptions
      ensures this.discoveries == discoveries && this.serialize == serialize
      ensures known == map[] && published == [] && subscribed == [] && connection == None && offered == []
      ensures direct == []
    {
      this.opts := opts;
      this.subscriptions := subscriptions;
      this.discoveries := discoveries;
      this.serialize := serialize;
      known := map[];
      published := [];
      subscribed := [];
      connection := None;
      offered := [];
      gated := [];
      direct := [];
      AgreesOffDirectTopicsEmpty();
    }

    /** The naming helpers of this class: the generator rules over the options'
        topic prefix and discovery name. */
    function Names(): (g: Naming.Generator)
      ensures g.topicPrefix == opts.topicPrefix && g.discoveryName == opts.discoveryName
      ensures g.AvailabilityTopic() == opts.topicPrefix + "/status"
    {
      Naming.Generator(opts.topicPrefix, opts.discoveryName)
    }

    /** PublishAsync(topic, payload): skip when the cache holds this payload for the
        topic; otherwise publish it retained and then record it. */
    method Publish(topic: string, payload: string)
      requires Valid()
      modifies this
      ensures Valid()
      ensures topic in old(known) && old(known)[topic] == payload ==>
        published == old(published) && known == old(known)
      ensures !(topic in old(known) && old(known)[topic] == payload) ==>
        published == old(published) + [Message(topic, payload, true)] && known == old(known)[topic := payload]
      ensures offered == old(offered) + [Offer(topic, payload, true, true)]
      ensures published == old(published) + Emitted(old(known), Offer(topic, payload, true, true))
      ensures known == Remember(old(known), Offer(topic, payload, true, true))
      ensures subscribed == old(subscribed) && connection == old(connection)
      ensures direct == old(direct)
    {
      var o := Offer(topic, payload, true, true);
      ghost var e := Emitted(known, o);
      SentExtend(map[], offered, o);
      GatedSendKeepsAgreement(published, gated, direct, e);
      offered := offered + [o];
      gated := gated + e;
      if topic in known && known[topic] == payload {
        assert published + e == published;
        return;
      }
      assert e == [Message(topic, payload, true)];
      published := published + [Message(topic, payload, true)];
      known := known[topic := payload];
    }

    /** PublishAsync(messages): one single-message publish per pair, in list order. */
    method PublishAll(messages: seq<(string, string)>)
      requires Valid()
      modifies this
      ensures Valid()
      ensures offered == old(offered) + PairOffers(messages)
      ensures published == old(published) + Sent(old(known), PairOffers(messages))
      ensures known == CacheAfter(old(known), PairOffers(messages))
      ensures subscribed == old(subscribed) && connection == old(connection)
      ensures direct == old(direct)
    {
      ghost var k0, p0, o0 := known, published, offered;
      ghost var ps := PairOffers(messages);
      var j := 0;
      while j < |messages|
        invariant 0 <= j <= |messages|
        invariant Valid()
        invariant offered == o0 + ps[..j]
        invariant published == p0 + Sent(k0, ps[..j])
        invariant known == CacheAfter(k0, ps[..j])
        invariant subscribed == old(subscribed) && connection == old(connection)
        invariant direct == old(direct)
      {
        ProcessedPrefix(k0, ps, j, o0, p0);
        Publish(messages[j].0, messages[j].1);
        j := j + 1;
      }
      assert ps[..j] == ps;
    }

    /** HandleSubscribeAsync: subscribe to the hook's topics, a null list counting as empty. */
    method HandleSubscribe()
      modifies this
      ensures subscribed == old(subscribed) + subscriptions.GetOr([])
      ensures subscriptions.None? ==> subscribed == old(subscribed)
      ensures published == old(published) && known == old(known) && connection == old(connection)
      ensures offered == old(offered) && gated == old(gated) && direct == old(direct)
    {
      var topics := match subscriptions case Some(ts) => ts case None => [];
      subscribed := subscribed + topics;
    }

    /** PublishDiscoveryAsync: the serialised record, retained, on its discovery topic,
        straight to the client. */
    method PublishDiscovery(e: DiscoveryEntry)
      requires Valid()
      modifies this
      ensures Valid()
      ensures direct == old(direct) + [opts.DiscoveryMessage(e, serialize(e.discovery))]
      ensures published == old(published) + [opts.DiscoveryMessage(e, serialize(e.discovery))]
      ensures known == old(known) && subscribed == old(subscribed) && connection == old(connection)
      ensures offered == old(offered) && gated == old(gated)
    {
      DirectSendKeepsAgreement(published, gated, direct, [opts.DiscoveryMessage(e, serialize(e.discovery))]);
      published := published + [opts.DiscoveryMessage(e, serialize(e.discovery))];
      direct := direct + [opts.DiscoveryMessage(e, serialize(e.discovery))];
    }

    /** HandleDiscoveryAsync: nothing when discovery is disabled; otherwise one message
        per entry of the hook's list (a null list counting as empty), bypassing the gate. */
    method HandleDiscovery()
      requires Valid()
      modifies this
      ensures Valid()
      ensures direct == old(direct) + (if opts.discoveryEnabled then opts.DiscoveryMessages(discoveries.GetOr([]), serialize) else [])
      ensures !opts.discoveryEnabled ==> published == old(published)
      ensures opts.discoveryEnabled ==>
        published == old(published) + opts.DiscoveryMessages(discoveries.GetOr([]), serialize)
      ensures discoveries.None? ==> published == old(published)
      ensures known == old(known) && subscribed == old(subscribed) && connection == old(connection)
      ensures offered == old(offered) && gated == old(gated)
    {
      if !opts.discoveryEnabled {
        return;
      }
      var entries := match discoveries case Some(ds) => ds case None => [];
      var msgs := opts.DiscoveryMessages(entries, serialize);
      var i := 0;
      while i < |entries|
        invariant 0 <= i <= |entries|
        invariant Valid()
        invariant direct == old(direct) + msgs[..i]
        invariant published == old(published) + msgs[..i]
        invariant known == old(known) && subscribed == old(subscribed) && connection == old(connection)
        invariant offered == old(offered) && gated == old(gated)
      {
        PublishDiscovery(entries[i]);
        assert msgs[..i + 1] == msgs[..i] + [msgs[i]];
        i := i + 1;
      }
      assert msgs[..i] == msgs;
    }

    /** ConnectAsync: start the client without credentials and with the retained
        "offline" will on "{TopicPrefix}/status". */
    method Connect()
      modifies this
      ensures connection == Some(opts.Client(opts.topicPrefix + "/status", false))
      ensures connection.value.credentials.None?
      ensures published == old(published) && known == old(known) && subscribed == old(subscribed)
      ensures offered == old(offered) && gated == old(gated) && direct == old(direct)
    {
      connection := Some(opts.Client(opts.topicPrefix + "/status", false));
    }

    /** The connected handler: "online", retained, on "{TopicPrefix}/status", straight
        to the client without reading or updating the cache. */
    method OnConnected()
      requires Valid()
      modifies this
      ensures Valid()
      ensures direct == old(direct) + [Message(opts.topicPrefix + "/status", Naming.Online, true)]
      ensures published == old(published) + [Message(opts.topicPrefix + "/status", Naming.Online, true)]
      ensures known == old(known) && subscribed == old(subscribed) && connection == old(connection)
      ensures offered == old(offered) && gated == old(gated)
    {
      DirectSendKeepsAgreement(published, gated, direct, [Message(opts.topicPrefix + "/status", Naming.Online, true)]);
      published := published + [Message(opts.topicPrefix + "/status", Naming.Online, true)];
      direct := direct + [Message(opts.topicPrefix + "/status", Naming.Online, true)];
    }

    /** What went through the gate on any topic: the payloads offered on it with
        consecutive duplicates collapsed; and that is what the broker has seen on
        every topic nothing was sent to directly. */
    lemma GatedTopicSeesCollapsed(t: string)
      requires Valid()
      ensures PayloadsOn(gated, t) == Collapse(OfferedOn(offered, t))
      ensures PayloadsOn(direct, t) == [] ==> PayloadsOn(published, t) == Collapse(OfferedOn(offered, t))
    {
      Dedup.GatedTopicSeesCollapsed(offered, t);
    }
  }
}
