/** The MQTT side of the C# runtime (TwoMQTT/Managers/MQTTManager.cs): data items
    from the IPC are mapped to (topic, payload) pairs and published through the
    deduplication gate; inbound messages become commands for the source; discovery
    records and the availability messages go straight to the client.

    The client is the append-only log `published` plus the list `subscribed`; the
    IPC's outgoing command channel is the list `commandsOut`. */
module MqttManager {
  import opened Text
  import opened Dedup
  import Naming
  import opened ManagerOptions

  class Manager<TData, TCmd> {
    const opts: Options
    const generator: Naming.Generator
    /** The liaison's hooks. */
    const mapData: TData -> seq<(string, string)>
    const mapCommand: (string, string) -> seq<TCmd>
    const subscriptions: seq<string>
    const discoveries: seq<DiscoveryEntry>
    /** The JSON serialisation of a discovery record, left opaque. */
    const serialize: Naming.Discovery -> string

    /** KnownMessages: the last payload published through the gate, per topic. */
    var known: map<string, string>
    var published: seq<Message>
    var subscribed: seq<string>
    var connection: Option<ClientOptions>
    var commandsOut: seq<TCmd>
    /** The (topic, payload) arguments of every call of the liaison's HandleCommandAsync. */
    var handledCommands: seq<(string, string)>
    /** Every offer made to the gate, and the messages it let through. */
    ghost var offered: seq<Offer>
    ghost var gated: seq<Message>
    /** The messages sent straight to the client: availability and discovery. */
    ghost var direct: seq<Message>

    /** The cache is the fold of the gate over every offer so far, the gated messages
        are what that fold sent, every offer is retained and checked, and the client's
        log numbers the gated and the direct messages together and, on every topic
        no direct message went to, carries the gated payloads in order. */
    ghost predicate Valid()
      reads this
    {
      known == CacheAfter(map[], offered) && gated == Sent(map[], offered) &&
      (forall i :: 0 <= i < |offered| ==> offered[i].retained && offered[i].checkDuplicate) &&
      AgreesOffDirectTopics(published, gated, direct)
    }

    constructor(opts: Options, generator: Naming.Generator,
                mapData: TData -> seq<(string, string)>, mapCommand: (string, string) -> seq<TCmd>,
                subscriptions: seq<string>, discoveries: seq<DiscoveryEntry>,
                serialize: Naming.Discovery -> string)
      ensures Valid()
      ensures this.opts == opts && this.generator == generator
      ensures this.mapData == mapData && this.mapCommand == mapCommand
      ensures this.subscriptions == subscriptions && this.discoveries == discoveries && this.serialize == serialize
      ensures known == map[] && published == [] && subscribed == [] && connection == None
      ensures commandsOut == [] && handledCommands == [] && offered == [] && direct == []
    {
      this.opts := opts;
      this.generator := generator;
      this.mapData := mapData;
      this.mapCommand := mapCommand;
      this.subscriptions := subscriptions;
      this.discoveries := discoveries;
      this.serialize := serialize;
      known := map[];
      published := [];
      subscribed := [];
      connection := None;
      commandsOut := [];
      handledCommands := [];
      offered := [];
      gated := [];
      direct := [];
      AgreesOffDirectTopicsEmpty();
    }

    /** The offers made for a run of data items: each item's pairs, in order. */
    function DataOffers(items: seq<TData>): seq<Offer>
      decreases |items|
    {
      if items == [] then [] else DataOffers(items[..|items| - 1]) + PairOffers(mapData(items[|items| - 1]))
    }

    /** PublishAsync: skip when the cache holds this payload for the topic; otherwise
        publish it retained and then record it. No other topic's entry changes. */
    method Publish(topic: string, payload: string)
      requires Valid()
      modifies this
      ensures Valid()
      ensures topic in old(known) && old(known)[topic] == payload ==>
        published == old(published) && known == old(known)
      ensures !(topic in old(known) && old(known)[topic] == payload) ==>
        published == old(published) + [Message(topic, payload, true)] && known == old(known)[topic := payload]
      ensures offered == old(offered) + [Offer(topic, payload, true, true)]
      ensures published == old(published) + Emitted(old(known), Offer(topic, payload, true, true))
      ensures known == Remember(old(known), Offer(topic, payload, true, true))
      ensures subscribed == old(subscribed) && connection == old(connection)
      ensures commandsOut == old(commandsOut) && handledCommands == old(handledCommands)
      ensures direct == old(direct)
    {
      var o := Offer(topic, payload, true, true);
      ghost var e := Emitted(known, o);
      SentExtend(map[], offered, o);
      GatedSendKeepsAgreement(published, gated, direct, e);
      offered := offered + [o];
      gated := gated + e;
      if topic in known && known[topic] == payload {
        assert published + e == published;
        return;
      }
      assert e == [Message(topic, payload, true)];
      published := published + [Message(topic, payload, true)];
      known := known[topic := payload];
    }

    /** The body ReadIncomingAsync runs for one item: each pair through the gate, in order. */
    method PublishPairs(pairs: seq<(string, string)>)
      requires Valid()
      modifies this
      ensures Valid()
      ensures offered == old(offered) + PairOffers(pairs)
      ensures published == old(published) + Sent(old(known), PairOffers(pairs))
      ensures known == CacheAfter(old(known), PairOffers(pairs))
      ensures subscribed == old(subscribed) && connection == old(connection)
      ensures commandsOut == old(commandsOut) && handledCommands == old(handledCommands)
      ensures direct == old(direct)
    {
      ghost var k0, p0, o0 := known, published, offered;
      ghost var ps := PairOffers(pairs);
      var j := 0;
      while j < |pairs|
        invariant 0 <= j <= |pairs|
        invariant Valid()
        invariant offered == o0 + ps[..j]
        invariant published == p0 + Sent(k0, ps[..j])
        invariant known == CacheAfter(k0, ps[..j])
        invariant subscribed == old(subscribed) && connection == old(connection)
        invariant commandsOut == old(commandsOut) && handledCommands == old(handledCommands)
        invariant direct == old(direct)
      {
        ProcessedPrefix(k0, ps, j, o0, p0);
        Publish(pairs[j].0, pairs[j].1);
        j := j + 1;
      }
      assert ps[..j] == ps;
    }

    /** ReadIncomingAsync: every item read from the IPC is mapped by the liaison and
        each resulting pair goes through the gate, item by item and pair by pair. */
    method ReadIncoming(items: seq<TData>)
      requires Valid()
      modifies this
      ensures Valid()
      ensures offered == old(offered) + DataOffers(items)
      ensures published == old(published) + Sent(old(known), DataOffers(items))
      ensures known == CacheAfter(old(known), DataOffers(items))
      ensures subscribed == old(subscribed) && connection == old(connection)
      ensures commandsOut == old(commandsOut) && handledCommands == old(handledCommands)
      ensures direct == old(direct)
    {
      ghost var k0, p0, o0 := known, published, offered;
      var i := 0;
      while i < |items|
        invariant 0 <= i <= |items|
        invariant Valid()
        invariant offered == o0 + DataOffers(items[..i])
        invariant published == p0 + Sent(k0, DataOffers(items[..i]))
        invariant known == CacheAfter(k0, DataOffers(items[..i]))
        invariant subscribed == old(subscribed) && connection == old(connection)
        invariant commandsOut == old(commandsOut) && handledCommands == old(handledCommands)
        invariant direct == old(direct)
      {
        var pubs := mapData(items[i]);
        ProcessedInTurn(k0, DataOffers(items[..i]), PairOffers(pubs), o0, p0);
        DataOffersStep(items, i);
        PublishPairs(pubs);
        i := i + 1;
      }
      assert items[..i] == items;
    }

    lemma DataOffersStep(items: seq<TData>, i: nat)
      requires i < |items|
      ensures DataOffers(items[..i + 1]) == DataOffers(items[..i]) + PairOffers(mapData(items[i]))
    {
      assert items[..i + 1][..i] == items[..i];
    }

    /** The message-received handler: every command the liaison maps the message to is
        written to the IPC, in order, then the liaison's raw hook is called once with
        the same topic and payload. No topic is treated specially and nothing is published. */
    method MessageReceived(topic: string, payload: string)
      modifies this
      ensures commandsOut == old(commandsOut) + mapCommand(topic, payload)
      ensures handledCommands == old(handledCommands) + [(topic, payload)]
      ensures published == old(published) && known == old(known) && subscribed == old(subscribed)
      ensures connection == old(connection) && offered == old(offered) && gated == old(gated)
      ensures direct == old(direct)
    {
      var cmds := mapCommand(topic, payload);
      var i := 0;
      while i < |cmds|
        invariant 0 <= i <= |cmds|
        invariant commandsOut == old(commandsOut) + cmds[..i]
        invariant handledCommands == old(handledCommands)
        invariant published == old(published) && known == old(known) && subscribed == old(subscribed)
        invariant connection == old(connection) && offered == old(offered) && gated == old(gated)
        invariant direct == old(direct)
      {
        commandsOut := commandsOut + [cmds[i]];
        i := i + 1;
      }
      assert cmds[..i] == cmds;
      handledCommands := handledCommands + [(topic, payload)];
    }

    /** HandleSubscribeAsync: subscribe to every topic the liaison lists. */
    method HandleSubscribe()
      modifies this
      ensures subscribed == old(subscribed) + subscriptions
      ensures published == old(published) && known == old(known) && connection == old(connection)
      ensures commandsOut == old(commandsOut) && handledCommands == old(handledCommands)
      ensures offered == old(offered) && gated == old(gated) && direct == old(direct)
    {
      subscribed := subscribed + subscriptions;
    }

    /** PublishDiscoveryAsync: the serialised record, retained, on its discovery topic,
        straight to the client. */
    method PublishDiscovery(e: DiscoveryEntry)
      requires Valid()
      modifies this
      ensures Valid()
      ensures direct == old(direct) + [opts.DiscoveryMessage(e, serialize(e.discovery))]
      ensures published == old(published) + [opts.DiscoveryMessage(e, serialize(e.discovery))]
      ensures known == old(known) && subscribed == old(subscribed) && connection == old(connection)
      ensures commandsOut == old(commandsOut) && handledCommands == old(handledCommands)
      ensures offered == old(offered) && gated == old(gated)
    {
      DirectSendKeepsAgreement(published, gated, direct, [opts.DiscoveryMessage(e, serialize(e.discovery))]);
      published := published + [opts.DiscoveryMessage(e, serialize(e.discovery))];
      direct := direct + [opts.DiscoveryMessage(e, serialize(e.discovery))];
    }

    /** HandleDiscoveryAsync: nothing when discovery is disabled; otherwise one message
        per entry, in order, bypassing the gate and its cache. */
    method HandleDiscovery()
      requires Valid()
      modifies this
      ensures Valid()
      ensures direct == old(direct) + (if opts.discoveryEnabled then opts.DiscoveryMessages(discoveries, serialize) else [])
      ensures !opts.discoveryEnabled ==> published == old(published)
      ensures opts.discoveryEnabled ==> published == old(published) + opts.DiscoveryMessages(discoveries, serialize)
      ensures known == old(known) && subscribed == old(subscribed) && connection == old(connection)
      ensures commandsOut == old(commandsOut) && handledCommands == old(handledCommands)
      ensures offered == old(offered) && gated == old(gated)
    {
      if !opts.discoveryEnabled {
        return;
      }
      var i := 0;
      while i < |discoveries|
        invariant 0 <= i <= |discoveries|
        invariant Valid()
        invariant direct == old(direct) + opts.DiscoveryMessages(discoveries, serialize)[..i]
        invariant published == old(published) + opts.DiscoveryMessages(discoveries, serialize)[..i]
        invariant known == old(known) && subscribed == old(subscribed) && connection == old(connection)
        invariant commandsOut == old(commandsOut) && handledCommands == old(handledCommands)
        invariant offered == old(offered) && gated == old(gated)
      {
        PublishDiscovery(discoveries[i]);
        assert opts.DiscoveryMessages(discoveries, serialize)[..i + 1]
          == opts.DiscoveryMessages(discoveries, serialize)[..i] + [opts.DiscoveryMessages(discoveries, serialize)[i]];
        i := i + 1;
      }
      assert opts.DiscoveryMessages(discoveries, serialize)[..i] == opts.DiscoveryMessages(discoveries, serialize);
    }

    /** ConnectAsync: start the client with credentials only for a non-empty user name
        and the retained "offline" will on the availability topic. */
    method Connect()
      modifies this
      ensures connection == Some(opts.Client(generator.AvailabilityTopic(), true))
      ensures published == old(published) && known == old(known) && subscribed == old(subscribed)
      ensures commandsOut == old(commandsOut) && handledCommands == old(handledCommands)
      ensures offered == old(offered) && gated == old(gated) && direct == old(direct)
    {
      connection := Some(opts.Client(generator.AvailabilityTopic(), true));
    }

    /** The connected handler: "online", retained, on the availability topic, straight
        to the client without reading or updating the cache. */
    method OnConnected()
      requires Valid()
      modifies this
      ensures Valid()
      ensures direct == old(direct) + [Message(generator.AvailabilityTopic(), Naming.Online, true)]
      ensures published == old(published) + [Message(generator.AvailabilityTopic(), Naming.Online, true)]
      ensures known == old(known) && subscribed == old(subscribed) && connection == old(connection)
      ensures commandsOut == old(commandsOut) && handledCommands == old(handledCommands)
      ensures offered == old(offered) && gated == old(gated)
    {
      DirectSendKeepsAgreement(published, gated, direct, [Message(generator.AvailabilityTopic(), Naming.Online, true)]);
      published := published + [Message(generator.AvailabilityTopic(), Naming.Online, true)];
      direct := direct + [Message(generator.AvailabilityTopic(), Naming.Online, true)];
    }

    /** MQTTSetupAsync after the handlers are registered: connect, then subscribe and
        announce discovery (the two run concurrently in the source; here in that order). */
    method Setup()
      requires Valid()
      modifies this
      ensures Valid()
      ensures direct == old(direct) + (if opts.discoveryEnabled then opts.DiscoveryMessages(discoveries, serialize) else [])
      ensures connection == Some(opts.Client(generator.AvailabilityTopic(), true))
      ensures subscribed == old(subscribed) + subscriptions
      ensures published == old(published) + (if opts.discoveryEnabled then opts.DiscoveryMessages(discoveries, serialize) else [])
      ensures known == old(known) && offered == old(offered) && gated == old(gated)
      ensures commandsOut == old(commandsOut) && handledCommands == old(handledCommands)
    {
      Connect();
      HandleSubscribe();
      HandleDiscovery();
    }

    /** What went through the gate on any topic: the payloads offered on it with
        consecutive duplicates collapsed; and that is what the broker has seen on
        every topic nothing was sent to directly. */
    lemma GatedTopicSeesCollapsed(t: string)
      requires Valid()
      ensures PayloadsOn(gated, t) == Collapse(OfferedOn(offered, t))
      ensures PayloadsOn(direct, t) == [] ==> PayloadsOn(published, t) == Collapse(OfferedOn(offered, t))
    {
      Dedup.GatedTopicSeesCollapsed(offered, t);
    }
  }
}
