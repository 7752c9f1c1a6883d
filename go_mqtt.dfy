/** The Go client wrapper of mqtt.go: a deduplicating publisher whose duplicate check
    can be switched off per call, optional handlers set before the client is
    initialised, the fixed sequence run on every connection, and the connect loop
    that retries until the broker accepts.

    Everything the client does is recorded, in order, in `trace`: messages sent to
    the broker and handler invocations. */
module GoMqtt {
  import opened Text
  import opened Dedup
  import opened GoNaming

  /** MQTTPublishOpts. */
  datatype PublishOpts = PublishOpts(retained: bool, duplicateCheck: bool)

  /** MQTTMessage: the topic and payload published, both empty when suppressed. */
  datatype MqttMessage = MqttMessage(topic: string, payload: string)

  /** One observable step of the client. */
  datatype Event =
    | Published(msg: Message)
    | StartedReadHandler
    | RanSubscribeHandler
    | RanConnectHandler
    | RanDisconnectHandler

  /** Messages as trace events, in order. */
  function AsEvents(ms: seq<Message>): (r: seq<Event>)
    ensures |r| == |ms|
    ensures forall i :: 0 <= i < |ms| ==> r[i] == Published(ms[i])
  {
    seq(|ms|, i requires 0 <= i < |ms| => Published(ms[i]))
  }

  lemma AsEventsAppend(a: seq<Message>, b: seq<Message>)
    ensures AsEvents(a + b) == AsEvents(a) + AsEvents(b)
  {
  }

  /** The messages a trace sent to the broker, in order. */
  function Sends(trace: seq<Event>): seq<Message>
    decreases |trace|
  {
    if trace == [] then []
    else Sends(trace[..|trace| - 1]) + (if trace[|trace| - 1].Published? then [trace[|trace| - 1].msg] else [])
  }

  lemma {:induction false} SendsAppend(a: seq<Event>, b: seq<Event>)
    ensures Sends(a + b) == Sends(a) + Sends(b)
    decreases |b|
  {
    if b == [] {
      assert a + b == a;
    } else {
      var ab := a + b;
      assert ab[..|ab| - 1] == a + b[..|b| - 1];
      SendsAppend(a, b[..|b| - 1]);
    }
  }

  /** A trace made of messages sends exactly those messages. */
  lemma {:induction false} SendsAsEvents(ms: seq<Message>)
    ensures Sends(AsEvents(ms)) == ms
    decreases |ms|
  {
    if ms != [] {
      var p := ms[..|ms| - 1];
      assert AsEvents(ms)[..|ms| - 1] == AsEvents(p);
      SendsAsEvents(p);
    }
  }

  /** Messages the gate lets through, appended to the trace, keep it agreeing with them off the direct topics. */
  lemma GatedTraceStep(trace: seq<Event>, gated: seq<Message>, direct: seq<Message>, e: seq<Message>)
    requires AgreesOffDirectTopics(Sends(trace), gated, direct)
    ensures AgreesOffDirectTopics(Sends(trace + AsEvents(e)), gated + e, direct)
  {
    SendsAppend(trace, AsEvents(e));
    SendsAsEvents(e);
    GatedSendKeepsAgreement(Sends(trace), gated, direct, e);
  }

  /** One more offer through the gate extends the trace by what the gate emits for it. */
  lemma TraceOneMore(known: map<string, string>, os: seq<Offer>, i: nat, history: seq<Offer>, log: seq<Event>)
    requires i < |os|
    ensures (history + os[..i]) + [os[i]] == history + os[..i + 1]
    ensures (log + AsEvents(Sent(known, os[..i]))) + AsEvents(Emitted(CacheAfter(known, os[..i]), os[i]))
      == log + AsEvents(Sent(known, os[..i + 1]))
    ensures Remember(CacheAfter(known, os[..i]), os[i]) == CacheAfter(known, os[..i + 1])
  {
    var a, o := os[..i], os[i];
    assert os[..i + 1] == a + [o];
    assert (history + a) + [o] == history + (a + [o]);
    SentExtend(known, a, o);
    AsEventsAppend(Sent(known, a), Emitted(CacheAfter(known, a), o));
  }

  /** The number of connection attempts a loop that retries until success makes
      against a broker answering `outcomes` in turn (true for a successful Connect);
      all of them when none succeeds. */
  function AttemptsUntilConnected(outcomes: seq<bool>): (n: nat)
    ensures n <= |outcomes|
    ensures true in outcomes ==> 1 <= n && outcomes[n - 1] && forall i :: 0 <= i < n - 1 ==> !outcomes[i]
    ensures true !in outcomes ==> n == |outcomes|
  {
    if outcomes == [] then 0
    else if outcomes[0] then 1
    else
      assert forall i :: 1 <= i < |outcomes| ==> outcomes[i] == outcomes[1..][i - 1];
      1 + AttemptsUntilConnected(outcomes[1..])
  }

  /** The Paho client options Initialize builds: the broker, the client ID, the user
      name and password (set even when empty) and the last will. */
  datatype ClientOptions = ClientOptions(broker: string, clientId: string, username: string, password: string, will: Message)

  /** The options Initialize gives the Paho client: every field copied from the MQTT
      options, credentials included whether or not they are empty, and "offline",
      retained, on the availability topic as the will. */
  function InitialOptions(opts: MqttOpts): (r: ClientOptions)
    ensures r.broker == opts.broker && r.clientId == opts.clientId
    ensures r.username == opts.username && r.password == opts.password
    ensures r.will.payload == "offline" && r.will.retained
    ensures r.will.topic == opts.topicPrefix + "/status"
  {
    ClientOptions(opts.broker, opts.clientId, opts.username, opts.password, Message(opts.AvailabilityTopic(), "offline", true))
  }

  /** The offers made by announcing a list of discovery records through Publish. */
  function DiscoveryOffers(opts: MqttOpts, mqds: seq<Discovery>, serialize: Discovery -> string): (r: seq<Offer>)
    ensures |r| == |mqds|
    ensures forall i :: 0 <= i < |mqds| ==>
      r[i] == Offer(opts.DiscoveryTopic(mqds[i].component, mqds[i].nodeId, mqds[i].objectId), serialize(mqds[i]), true, true)
  {
    seq(|mqds|, i requires 0 <= i < |mqds| =>
      Offer(opts.DiscoveryTopic(mqds[i].component, mqds[i].nodeId, mqds[i].objectId), serialize(mqds[i]), true, true))
  }

  /** The messages the discovery step sends, given the handler and the cache before it. */
  function DiscoveryEvents(opts: MqttOpts, handler: Option<seq<Discovery>>, serialize: Discovery -> string,
                           known: map<string, string>): seq<Event>
  {
    match handler
    case None => []
    case Some(mqds) => AsEvents(Sent(known, DiscoveryOffers(opts, mqds, serialize)))
  }

  /** The handlers onConnect runs after discovery: subscribe, then connect, each if set. */
  function HandlerEvents(subscribe: bool, connect: bool): seq<Event>
  {
    (if subscribe then [RanSubscribeHandler] else []) + (if connect then [RanConnectHandler] else [])
  }

  /** The MQTT struct. A handler is modelled by whether it is set; the discovery
      handler by the list it returns. */
  class Client {
    const opts: MqttOpts
    /** json.Marshal of a discovery record, left opaque. */
    const serialize: Discovery -> string

    var connectHandler: bool
    var disconnectHandler: bool
    var subscribeHandler: bool
    var readHandler: bool
    var discoveryHandler: Option<seq<Discovery>>
    /** The options of the Paho client Initialize created, if it has run. */
    var client: Option<ClientOptions>

    /** lastPublished: the last payload published through the gate, per topic. */
    var known: map<string, string>
    var trace: seq<Event>
    ghost var offered: seq<Offer>
    ghost var gated: seq<Message>
    /** The messages sent past the gate: the "online" availability message. */
    ghost var direct: seq<Message>

    /** The cache is the fold of the gate over every offer so far, the gated messages
        are what that fold sent, and the messages of the trace number the gated and the
        direct ones together and, on every topic no direct message went to, carry
        the gated payloads in order. */
    ghost predicate Valid()
      reads this
    {
      known == CacheAfter(map[], offered) && gated == Sent(map[], offered) &&
      AgreesOffDirectTopics(Sends(trace), gated, direct)
    }

    /** NewMQTT: no handlers, nothing published. */
    constructor(opts: MqttOpts, serialize: Discovery -> string)
      ensures Valid()
      ensures this.opts == opts && this.serialize == serialize
      ensures !connectHandler && !disconnectHandler && !subscribeHandler && !readHandler
      ensures discoveryHandler == None && client == None
      ensures known == map[] && trace == [] && offered == [] && direct == []
    {
      this.opts := opts;
      this.serialize := serialize;
      connectHandler := false;
      disconnectHandler := false;
      subscribeHandler := false;
      readHandler := false;
      discoveryHandler := None;
      client := None;
      known := map[];
      trace := [];
      offered := [];
      gated := [];
      direct := [];
      AgreesOffDirectTopicsEmpty();
    }

    method SetDiscoveryHandler(mqds: seq<Discovery>)
      modifies this`discoveryHandler
      ensures discoveryHandler == Some(mqds)
    {
      discoveryHandler := Some(mqds);
    }

    method SetSubscribeHandler()
      modifies this`subscribeHandler
      ensures subscribeHandler
    {
      subscribeHandler := true;
    }

    method SetReadIncomingChannelHandler()
      modifies this`readHandler
      ensures readHandler
    {
      readHandler := true;
    }

    method SetConnectHandler()
      modifies this`connectHandler
      ensures connectHandler
    {
      connectHandler := true;
    }

    method SetDisconnectHandler()
      modifies this`disconnectHandler
      ensures disconnectHandler
    {
      disconnectHandler := true;
    }

    /** Initialize: a Paho client for the broker and client ID, always given the user
        name and password, with the "offline" will on the availability topic. */
    method Initialize()
      modifies this`client
      ensures client == Some(InitialOptions(opts))
    {
      client := Some(ClientOptions(opts.broker, opts.clientId, opts.username, opts.password,
                                   Message(opts.AvailabilityTopic(), "offline", true)));
    }

    /** PublishWithOpts: with the duplicate check on and the cache holding this payload
        for the topic, nothing is sent and the empty message is returned; otherwise the
        message is sent, recorded in the cache (whatever the broker answers, and also
        when the check is off) and returned. */
    method PublishWithOpts(topic: string, payload: string, po: PublishOpts) returns (r: MqttMessage)
      requires Valid()
      modifies this`known, this`trace, this`offered, this`gated
      ensures Valid()
      ensures po.duplicateCheck && topic in old(known) && old(known)[topic] == payload ==>
        r == MqttMessage("", "") && trace == old(trace) && known == old(known)
      ensures !(po.duplicateCheck && topic in old(known) && old(known)[topic] == payload) ==>
        r == MqttMessage(topic, payload) && known == old(known)[topic := payload] &&
        trace == old(trace) + [Published(Message(topic, payload, po.retained))]
      ensures offered == old(offered) + [Offer(topic, payload, po.retained, po.duplicateCheck)]
      ensures trace == old(trace) + AsEvents(Emitted(old(known), Offer(topic, payload, po.retained, po.duplicateCheck)))
      ensures known == Remember(old(known), Offer(topic, payload, po.retained, po.duplicateCheck))
    {
      var o := Offer(topic, payload, po.retained, po.duplicateCheck);
      ghost var e := Emitted(known, o);
      SentExtend(map[], offered, o);
      GatedTraceStep(trace, gated, direct, e);
      offered := offered + [o];
      gated := gated + e;
      if po.duplicateCheck && topic in known && known[topic] == payload {
        assert trace + AsEvents(e) == trace;
        return MqttMessage("", "");
      }
      assert AsEvents(e) == [Published(Message(topic, payload, po.retained))];
      trace := trace + [Published(Message(topic, payload, po.retained))];
      known := known[topic := payload];
      r := MqttMessage(topic, payload);
    }

    /** Publish: retained, with the duplicate check. */
    method Publish(topic: string, payload: string) returns (r: MqttMessage)
      requires Valid()
      modifies this`known, this`trace, this`offered, this`gated
      ensures Valid()
      ensures topic in old(known) && old(known)[topic] == payload ==>
        r == MqttMessage("", "") && trace == old(trace) && known == old(known)
      ensures !(topic in old(known) && old(known)[topic] == payload) ==>
        r == MqttMessage(topic, payload) && known == old(known)[topic := payload] &&
        trace == old(trace) + [Published(Message(topic, payload, true))]
      ensures offered == old(offered) + [Offer(topic, payload, true, true)]
      ensures trace == old(trace) + AsEvents(Emitted(old(known), Offer(topic, payload, true, true)))
      ensures known == Remember(old(known), Offer(topic, payload, true, true))
    {
      r := PublishWithOpts(topic, payload, PublishOpts(true, true));
    }

    /** publishDiscovery: nothing without a discovery handler; otherwise every record
        the handler returns goes through Publish (so the gate applies) on its
        discovery topic, in order. The Discovery option is not consulted. */
    method PublishDiscovery()
      requires Valid()
      modifies this`known, this`trace, this`offered, this`gated
      ensures Valid()
      ensures discoveryHandler.None? ==> trace == old(trace) && known == old(known) && offered == old(offered)
      ensures discoveryHandler.Some? ==>
        var os := DiscoveryOffers(opts, discoveryHandler.value, serialize);
        offered == old(offered) + os &&
        trace == old(trace) + AsEvents(Sent(old(known), os)) &&
        known == CacheAfter(old(known), os)
      ensures trace == old(trace) + DiscoveryEvents(opts, discoveryHandler, serialize, old(known))
    {
      if discoveryHandler.None? {
        return;
      }
      PublishEach(discoveryHandler.value);
    }

    /** The loop of publishDiscovery: each record, serialised, through the gate on its
        discovery topic, in order. */
    method PublishEach(mqds: seq<Discovery>)
      requires Valid()
      modifies this`known, this`trace, this`offered, this`gated
      ensures Valid()
      ensures offered == old(offered) + DiscoveryOffers(opts, mqds, serialize)
      ensures trace == old(trace) + AsEvents(Sent(old(known), DiscoveryOffers(opts, mqds, serialize)))
      ensures known == CacheAfter(old(known), DiscoveryOffers(opts, mqds, serialize))
    {
      ghost var os := DiscoveryOffers(opts, mqds, serialize);
      ghost var k0, t0, o0 := known, trace, offered;
      var i := 0;
      while i < |mqds|
        invariant 0 <= i <= |mqds|
        invariant Valid()
        invariant offered == o0 + os[..i]
        invariant trace == t0 + AsEvents(Sent(k0, os[..i]))
        invariant known == CacheAfter(k0, os[..i])
      {
        var topic := opts.DiscoveryTopic(mqds[i].component, mqds[i].nodeId, mqds[i].objectId);
        TraceOneMore(k0, os, i, o0, t0);
        var _ := Publish(topic, serialize(mqds[i]));
        i := i + 1;
      }
      assert os[..i] == os;
    }

    /** onConnect, in this order: "online", retained, on the availability topic, sent
        directly without touching the cache; then discovery; then the subscribe
        handler if set; then the connect handler if set. */
    method OnConnect()
      requires Valid()
      modifies this`known, this`trace, this`offered, this`gated, this`direct
      ensures Valid()
      ensures trace == old(trace) + [Published(Message(opts.AvailabilityTopic(), "online", true))]
        + DiscoveryEvents(opts, discoveryHandler, serialize, old(known))
        + HandlerEvents(subscribeHandler, connectHandler)
      ensures direct == old(direct) + [Message(opts.AvailabilityTopic(), "online", true)]
      ensures discoveryHandler.None? ==> offered == old(offered) && known == old(known)
      ensures discoveryHandler.Some? ==>
        var os := DiscoveryOffers(opts, discoveryHandler.value, serialize);
        offered == old(offered) + os && known == CacheAfter(old(known), os)
    {
      ghost var online := Message(opts.AvailabilityTopic(), "online", true);
      SendsAppend(trace, [Published(online)]);
      assert Sends([Published(online)]) == [online];
      DirectSendKeepsAgreement(Sends(trace), gated, direct, [online]);
      trace := trace + [Published(Message(opts.AvailabilityTopic(), "online", true))];
      direct := direct + [online];
      PublishDiscovery();
      RunConnectionHandlers();
    }

    /** The tail of onConnect: the subscribe handler if set, then the connect handler if set. */
    method RunConnectionHandlers()
      modifies this`trace
      ensures trace == old(trace) + HandlerEvents(subscribeHandler, connectHandler)
      ensures Sends(trace) == Sends(old(trace))
    {
      if subscribeHandler {
        trace := trace + [RanSubscribeHandler];
      }
      if connectHandler {
        trace := trace + [RanConnectHandler];
      }
    }

    /** onDisconnect: the disconnect handler, if set. */
    method OnDisconnect()
      modifies this`trace
      ensures trace == old(trace) + (if disconnectHandler then [RanDisconnectHandler] else [])
      ensures Sends(trace) == Sends(old(trace))
    {
      if disconnectHandler {
        trace := trace + [RanDisconnectHandler];
      }
    }

    /** Run: start the read handler if set, then try to connect until the broker
        accepts. `outcomes` are the broker's answers to successive attempts; the
        model stops when they run out, where the source keeps retrying. */
    method Run(outcomes: seq<bool>) returns (attempts: nat, connected: bool)
      modifies this`trace
      ensures trace == old(trace) + (if readHandler then [StartedReadHandler] else [])
      ensures Sends(trace) == Sends(old(trace))
      ensures attempts == AttemptsUntilConnected(outcomes)
      ensures connected <==> true in outcomes
    {
      if readHandler {
        trace := trace + [StartedReadHandler];
      }
      attempts, connected := 0, false;
      while !connected && attempts < |outcomes|
        invariant attempts <= |outcomes|
        invariant !connected ==> AttemptsUntilConnected(outcomes) == attempts + AttemptsUntilConnected(outcomes[attempts..])
        invariant !connected ==> forall i :: 0 <= i < attempts ==> !outcomes[i]
        invariant connected ==> attempts == AttemptsUntilConnected(outcomes) && true in outcomes
        decreases |outcomes| - attempts, !connected
      {
        var ok := outcomes[attempts];
        assert outcomes[attempts..][1..] == outcomes[attempts + 1..];
        attempts := attempts + 1;
        if !ok {
          // Back off, then try again.
          continue;
        }
        connected := true;
      }
      if !connected {
        assert outcomes[attempts..] == [];
        assert true !in outcomes by {
          forall i | 0 <= i < |outcomes| ensures !outcomes[i] {
          }
        }
      }
    }

    /** With every offer on a topic checked, the broker sees on it the offered
        payloads with consecutive duplicates collapsed. */
    lemma CheckedTopicSeesCollapsed(t: string)
      requires Valid() && AllChecked(offered, t)
      ensures PayloadsOn(gated, t) == Collapse(OfferedOn(offered, t))
      ensures PayloadsOn(direct, t) == [] ==> PayloadsOn(Sends(trace), t) == Collapse(OfferedOn(offered, t))
    {
      GatedTopicSeesCollapsed(offered, t);
    }

    /** With the check off for every offer on a topic, the broker sees every offered payload. */
    lemma UncheckedTopicSeesEverything(t: string)
      requires Valid() && NoneChecked(offered, t)
      ensures PayloadsOn(gated, t) == OfferedOn(offered, t)
      ensures PayloadsOn(direct, t) == [] ==> PayloadsOn(Sends(trace), t) == OfferedOn(offered, t)
    {
      Dedup.UncheckedTopicSeesEverything(map[], offered, t);
    }

    /** lastPublished holds the last payload offered on a topic, checked or not. */
    lemma CacheHoldsLastOffer(t: string)
      requires Valid() && OfferedOn(offered, t) != []
      ensures t in known && known[t] == OfferedOn(offered, t)[|OfferedOn(offered, t)| - 1]
    {
      Dedup.CacheHoldsLastOffer(map[], offered, t);
    }
  }
}
