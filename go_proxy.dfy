/** The Go MQTT proxy of mqttProxy.go: a deduplicating publisher that always lets the
    availability topic through, the discovery records it builds and announces, and
    its connect loop. */
module GoProxy {
  import opened Text
  import opened Dedup
  import opened GoNaming
  import GoMqtt

  /** MQTTProxyPublishOptions: retain the message, and whether to apply the duplicate check. */
  datatype PublishOpts = PublishOpts(retained: bool, duplicateCheck: bool)

  /** The offer a proxy publish makes: the duplicate check is dropped on the
      availability topic. */
  function ProxyOffer(availabilityTopic: string, topic: string, payload: string, po: PublishOpts): (o: Offer)
    ensures o.Msg() == Message(topic, payload, po.retained)
    ensures o.checkDuplicate <==> po.duplicateCheck && topic != availabilityTopic
  {
    Offer(topic, payload, po.retained, po.duplicateCheck && topic != availabilityTopic)
  }

  /** The discovery record for a name/sensor pair of a given component type. */
  function NewDiscovery(opts: MqttOpts, name: string, sensor: string, sensorType: string): (r: Discovery)
    ensures r.discoveryPrefix == opts.discoveryPrefix && r.component == sensorType
    ensures r.nodeId == opts.discoveryName && r.objectId == ObjectID(name, sensor)
    ensures r.availabilityTopic == opts.AvailabilityTopic() && r.stateTopic == opts.StateTopic(name, sensor)
    ensures r.name == ObjectName(opts.discoveryName, name, sensor)
    ensures r.uniqueId == ObjectUniqueID(opts.discoveryName, name, sensor)
    ensures r.device == Device([r.availabilityTopic], "twomqtt", opts.discoveryName)
  {
    Discovery(
      discoveryPrefix := opts.discoveryPrefix,
      component := sensorType,
      nodeId := opts.discoveryName,
      objectId := ObjectID(name, sensor),
      availabilityTopic := opts.AvailabilityTopic(),
      name := ObjectName(opts.discoveryName, name, sensor),
      stateTopic := opts.StateTopic(name, sensor),
      uniqueId := ObjectUniqueID(opts.discoveryName, name, sensor),
      device := Device([opts.AvailabilityTopic()], "twomqtt", opts.discoveryName))
  }

  /** The topic a discovery record is announced on, read from the record itself. */
  function AnnouncedOn(mqd: Discovery): (r: string)
    ensures r == mqd.discoveryPrefix + "/" + mqd.component + "/" + mqd.nodeId + "/" + mqd.objectId + "/config"
    ensures ('/' !in mqd.discoveryPrefix && '/' !in mqd.component && '/' !in mqd.nodeId && '/' !in mqd.objectId) ==>
      Split(r, "/") == [mqd.discoveryPrefix, mqd.component, mqd.nodeId, mqd.objectId, "config"]
  {
    var r := Join([mqd.discoveryPrefix, mqd.component, mqd.nodeId, mqd.objectId, "config"], "/");
    JoinFive(mqd.discoveryPrefix, mqd.component, mqd.nodeId, mqd.objectId, "config", "/");
    assert r == mqd.discoveryPrefix + "/" + mqd.component + "/" + mqd.nodeId + "/" + mqd.objectId + "/" + "config";
    if '/' !in mqd.discoveryPrefix && '/' !in mqd.component && '/' !in mqd.nodeId && '/' !in mqd.objectId then
      SplitJoin([mqd.discoveryPrefix, mqd.component, mqd.nodeId, mqd.objectId, "config"], '/');
      r
    else r
  }

  /** A record built by the proxy is announced under the configured discovery prefix,
      its component type, the discovery name, and the '_'-joined lower-cased
      name and sensor: the topic splits back into exactly those parts. */
  lemma NewDiscoveryAnnouncedOn(opts: MqttOpts, name: string, sensor: string, sensorType: string)
    requires '/' !in opts.discoveryPrefix && '/' !in opts.discoveryName && '/' !in sensorType
    requires '/' !in name && '/' !in sensor
    ensures name != "" ==>
      Split(AnnouncedOn(NewDiscovery(opts, name, sensor, sensorType)), "/")
        == [opts.discoveryPrefix, sensorType, opts.discoveryName, Lower(name) + "_" + Lower(sensor), "config"]
    ensures name == "" ==>
      Split(AnnouncedOn(NewDiscovery(opts, name, sensor, sensorType)), "/")
        == [opts.discoveryPrefix, sensorType, opts.discoveryName, Lower(sensor), "config"]
    ensures AnnouncedOn(NewDiscovery(opts, name, sensor, sensorType))
      == opts.DiscoveryTopic(sensorType, opts.discoveryName, ObjectID(name, sensor))
  {
    LowerKeepsNonLetterAbsent(name, '/');
    LowerKeepsNonLetterAbsent(sensor, '/');
    assert '/' !in ObjectID(name, sensor);
  }

  /** The number of Connect attempts Run makes against a broker answering `outcomes`:
      one, whatever its answer (none when there is no answer at all). */
  function ProxyRunAttempts(outcomes: seq<bool>): (n: nat)
    ensures n <= 1 && n <= |outcomes|
    ensures outcomes != [] ==> n == 1
  {
    if outcomes == [] then 0 else 1
  }

  /** Whether Run leaves connected: only when the first attempt succeeds. */
  predicate ProxyRunConnects(outcomes: seq<bool>) {
    outcomes != [] && outcomes[0]
  }

  /** Run as written and the retrying loop of mqtt.go agree exactly when the first
      answer decides: it succeeds, or no attempt ever would. */
  lemma ProxyRunAgreesWithRetryingIff(outcomes: seq<bool>)
    ensures (ProxyRunConnects(outcomes) <==> true in outcomes)
      <==> (outcomes == [] || outcomes[0] || true !in outcomes)
    ensures (ProxyRunAttempts(outcomes) == GoMqtt.AttemptsUntilConnected(outcomes))
      <==> (outcomes == [] || outcomes[0] || |outcomes| == 1)
  {
    if outcomes != [] && !outcomes[0] && |outcomes| > 1 {
      assert GoMqtt.AttemptsUntilConnected(outcomes) != 1;
    }
  }

  /** The failing case: a broker that refuses once and then accepts. Run as written
      gives up after the refusal; the retrying loop connects on the second attempt. */
  lemma ProxyRunGivesUpAfterOneRefusal()
    ensures ProxyRunAttempts([false, true]) == 1 && !ProxyRunConnects([false, true])
    ensures GoMqtt.AttemptsUntilConnected([false, true]) == 2
  {
  }

  /** The MQTTProxy struct. */
  class Proxy {
    const opts: MqttOpts
    /** json.Marshal of a discovery record, left opaque. */
    const serialize: Discovery -> string

    /** The options of the Paho client Initialize created, if it has run. */
    var client: Option<GoMqtt.ClientOptions>
    /** lastPublished: the last payload published, per topic. */
    var known: map<string, string>
    /** What the broker has been sent, in order. */
    var published: seq<Message>
    ghost var offered: seq<Offer>

    /** The cache and the broker log are the gate's fold over every offer, and no offer
        on the availability topic asks for the duplicate check. */
    ghost predicate Valid()
      reads this
    {
      known == CacheAfter(map[], offered) && published == Sent(map[], offered) &&
      NoneChecked(offered, opts.AvailabilityTopic())
    }

    /** NewMQTTProxy. */
    constructor(opts: MqttOpts, serialize: Discovery -> string)
      ensures Valid()
      ensures this.opts == opts && this.serialize == serialize
      ensures client == None && known == map[] && published == [] && offered == []
    {
      this.opts := opts;
      this.serialize := serialize;
      client := None;
      known := map[];
      published := [];
      offered := [];
    }

    /** Initialize: the same client options as the client wrapper's, with the
        caller's connect and connection-lost handlers (not modelled). */
    method Initialize()
      modifies this`client
      ensures client == Some(GoMqtt.InitialOptions(opts))
    {
      client := Some(GoMqtt.ClientOptions(opts.broker, opts.clientId, opts.username, opts.password,
                                          Message(opts.AvailabilityTopic(), "offline", true)));
    }

    /** PublishWithOpts: suppressed only when the check is asked for, the topic is not
        the availability topic and the stored payload equals this one; otherwise sent
        and stored, whatever the broker answers. */
    method PublishWithOpts(topic: string, payload: string, po: PublishOpts)
      requires Valid()
      modifies this`known, this`published, this`offered
      ensures Valid()
      ensures po.duplicateCheck && topic != opts.AvailabilityTopic() && topic in old(known) && old(known)[topic] == payload ==>
        published == old(published) && known == old(known)
      ensures !(po.duplicateCheck && topic != opts.AvailabilityTopic() && topic in old(known) && old(known)[topic] == payload) ==>
        published == old(published) + [Message(topic, payload, po.retained)] && known == old(known)[topic := payload]
      ensures offered == old(offered) + [ProxyOffer(opts.AvailabilityTopic(), topic, payload, po)]
    {
      var o := ProxyOffer(opts.AvailabilityTopic(), topic, payload, po);
      SentExtend(map[], offered, o);
      NoneCheckedExtend(offered, o, opts.AvailabilityTopic());
      offered := offered + [o];
      if po.duplicateCheck && topic != opts.AvailabilityTopic() {
        if topic in known && known[topic] == payload {
          return;
        }
      }
      published := published + [Message(topic, payload, po.retained)];
      known := known[topic := payload];
    }

    /** Publish: retained, with the duplicate check. */
    method Publish(topic: string, payload: string)
      requires Valid()
      modifies this`known, this`published, this`offered
      ensures Valid()
      ensures topic != opts.AvailabilityTopic() && topic in old(known) && old(known)[topic] == payload ==>
        published == old(published) && known == old(known)
      ensures !(topic != opts.AvailabilityTopic() && topic in old(known) && old(known)[topic] == payload) ==>
        published == old(published) + [Message(topic, payload, true)] && known == old(known)[topic := payload]
      ensures offered == old(offered) + [ProxyOffer(opts.AvailabilityTopic(), topic, payload, PublishOpts(true, true))]
    {
      PublishWithOpts(topic, payload, PublishOpts(true, true));
    }

    /** PublishDiscovery: the serialised record through Publish, on the topic the
        record itself names (its own discovery prefix, not the configured one). */
    method PublishDiscovery(mqd: Discovery)
      requires Valid()
      modifies this`known, this`published, this`offered
      ensures Valid()
      ensures offered == old(offered) + [ProxyOffer(opts.AvailabilityTopic(), AnnouncedOn(mqd), serialize(mqd), PublishOpts(true, true))]
      ensures AnnouncedOn(mqd) in old(known) && old(known)[AnnouncedOn(mqd)] == serialize(mqd) && AnnouncedOn(mqd) != opts.AvailabilityTopic() ==>
        published == old(published)
      ensures !(AnnouncedOn(mqd) in old(known) && old(known)[AnnouncedOn(mqd)] == serialize(mqd) && AnnouncedOn(mqd) != opts.AvailabilityTopic()) ==>
        published == old(published) + [Message(AnnouncedOn(mqd), serialize(mqd), true)]
    {
      var topic := AnnouncedOn(mqd);
      var payload := serialize(mqd);
      Publish(topic, payload);
    }

    /** LastPublishedOnTopic: the stored payload, or "" when none is stored. */
    function LastPublishedOnTopic(topic: string): (r: string)
      reads this
      requires Valid()
      ensures OfferedOn(offered, topic) == [] ==> r == ""
      ensures OfferedOn(offered, topic) != [] ==> r == OfferedOn(offered, topic)[|OfferedOn(offered, topic)| - 1]
    {
      CacheHoldsLastOffer(map[], offered, topic);
      if topic in known then known[topic] else ""
    }

    /** Every payload offered on the availability topic reaches the broker, in order,
        repeats included. */
    lemma AvailabilityNeverSuppressed()
      requires Valid()
      ensures PayloadsOn(published, opts.AvailabilityTopic()) == OfferedOn(offered, opts.AvailabilityTopic())
    {
      UncheckedTopicSeesEverything(map[], offered, opts.AvailabilityTopic());
    }

    /** On a topic where every publish asked for the check, the broker sees the offered
        payloads with consecutive duplicates collapsed. */
    lemma CheckedTopicSeesCollapsed(t: string)
      requires Valid() && AllChecked(offered, t)
      ensures PayloadsOn(published, t) == Collapse(OfferedOn(offered, t))
    {
      GatedTopicSeesCollapsed(offered, t);
    }

    /** Run as written: one Connect attempt, after which the loop is left whether or
        not it succeeded. */
    method Run(outcomes: seq<bool>) returns (attempts: nat, connected: bool)
      ensures attempts == ProxyRunAttempts(outcomes)
      ensures connected == ProxyRunConnects(outcomes)
    {
      attempts, connected := 0, false;
      // The source's loop body ends in an unconditional break, so it runs once.
      if attempts < |outcomes| {
        var ok := outcomes[attempts];
        attempts := attempts + 1;
        if !ok {
          // Back off; no `continue` follows, so control falls through to the break.
        }
        connected := ok;
      }
    }

    /** Run as evidently intended (and as mqtt.go's Run does it): retry until the
        broker accepts. */
    method RunRetrying(outcomes: seq<bool>) returns (attempts: nat, connected: bool)
      ensures attempts == GoMqtt.AttemptsUntilConnected(outcomes)
      ensures connected <==> true in outcomes
    {
      attempts, connected := 0, false;
      while !connected && attempts < |outcomes|
        invariant attempts <= |outcomes|
        invariant !connected ==> GoMqtt.AttemptsUntilConnected(outcomes) == attempts + GoMqtt.AttemptsUntilConnected(outcomes[attempts..])
        invariant !connected ==> forall i :: 0 <= i < attempts ==> !outcomes[i]
        invariant connected ==> attempts == GoMqtt.AttemptsUntilConnected(outcomes) && true in outcomes
        decreases |outcomes| - attempts, !connected
      {
        var ok := outcomes[attempts];
        assert outcomes[attempts..][1..] == outcomes[attempts + 1..];
        attempts := attempts + 1;
        if !ok {
          continue;
        }
        connected := true;
      }
      if !connected {
        assert outcomes[attempts..] == [];
        assert true !in outcomes by {
          forall i | 0 <= i < |outcomes| ensures !outcomes[i] {
          }
        }
      }
    }
  }
}
