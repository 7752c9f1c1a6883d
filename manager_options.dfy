/** The options, client settings and discovery messages shared by both C# MQTT
    managers (the record in TwoMQTT/Models and the class in TwoMQTT/Core/Models
    carry the same fields and defaults). */
module ManagerOptions {
  import opened Text
  import opened Dedup
  import Naming

  /** One entry of a liaison's discovery list: the slug, the sensor, the Home
      Assistant component type and the record to announce. */
  datatype DiscoveryEntry = DiscoveryEntry(slug: string, sensor: string, sensorType: string, discovery: Naming.Discovery)

  /** What the client is started with: the broker, the credentials if any, and the
      last-will message the broker sends for us when the connection drops. */
  datatype ClientOptions = ClientOptions(server: string, credentials: Option<(string, string)>, will: Message)

  datatype Options = Options(
    broker: string,
    username: string,
    password: string,
    topicPrefix: string,
    discoveryEnabled: bool,
    discoveryPrefix: string,
    discoveryName: string)
  {
    /** The discovery topic of one entry:
        "{discoveryPrefix}/{type}/{discoveryName}/{Stringify("", slug, sensor, '_')}/config".
        When no part holds a '/', the topic splits back into exactly those five parts. */
    function DiscoveryTopic(sensorType: string, slug: string, sensor: string): (r: string)
      ensures r == discoveryPrefix + "/" + sensorType + "/" + discoveryName + "/"
        + Naming.Stringify("", slug, sensor, '_') + "/config"
      ensures var objectId := Naming.Stringify("", slug, sensor, '_');
        ('/' !in discoveryPrefix && '/' !in sensorType && '/' !in discoveryName && '/' !in slug && '/' !in sensor) ==>
          Split(r, "/") == [discoveryPrefix, sensorType, discoveryName, objectId, "config"]
    {
      var objectId := Naming.Stringify("", slug, sensor, '_');
      var parts := [discoveryPrefix, sensorType, discoveryName, objectId, "config"];
      JoinFive(discoveryPrefix, sensorType, discoveryName, objectId, "config", "/");
      assert Join(parts, "/") == discoveryPrefix + "/" + sensorType + "/" + discoveryName + "/" + objectId + "/" + "config";
      if '/' !in discoveryPrefix && '/' !in sensorType && '/' !in discoveryName && '/' !in slug && '/' !in sensor then
        var pieces := Naming.Pieces("", slug, sensor);
        JoinAvoids(pieces, "_", '/');
        LowerKeepsNonLetterAbsent(Join(pieces, "_"), '/');
        SplitJoin(parts, '/');
        Join(parts, "/")
      else
        Join(parts, "/")
    }

    /** The retained message announcing one discovery entry with its serialised record. */
    function DiscoveryMessage(e: DiscoveryEntry, payload: string): (r: Message)
      ensures r.retained && r.payload == payload
      ensures r.topic == DiscoveryTopic(e.sensorType, e.slug, e.sensor)
    {
      Message(DiscoveryTopic(e.sensorType, e.slug, e.sensor), payload, true)
    }

    /** The discovery messages of a list of entries: one per entry, in order. */
    function DiscoveryMessages(es: seq<DiscoveryEntry>, serialize: Naming.Discovery -> string): (r: seq<Message>)
      ensures |r| == |es|
      ensures forall i :: 0 <= i < |es| ==> r[i] == DiscoveryMessage(es[i], serialize(es[i].discovery))
    {
      seq(|es|, i requires 0 <= i < |es| => DiscoveryMessage(es[i], serialize(es[i].discovery)))
    }

    /** The client settings: credentials only for a non-empty user name, and the
        retained "offline" will on the given availability topic. */
    function Client(availabilityTopic: string, withCredentials: bool): (r: ClientOptions)
      ensures r.server == broker
      ensures r.credentials.Some? <==> withCredentials && username != ""
      ensures r.credentials.Some? ==> r.credentials.value == (username, password)
      ensures r.will == Message(availabilityTopic, Naming.Offline, true)
    {
      ClientOptions(
        broker,
        if withCredentials && username != "" then Some((username, password)) else None,
        Message(availabilityTopic, Naming.Offline, true))
    }
  }

  /** The defaults of the options record. */
  function DefaultOptions(): (r: Options)
    ensures r.broker == "test.mosquitto.org" && r.topicPrefix == ""
    ensures r.discoveryEnabled && r.discoveryPrefix == "homeassistant" && r.discoveryName == ""
  {
    Options("test.mosquitto.org", "", "", "", true, "homeassistant", "")
  }

  /** The offers made by publishing a list of (topic, payload) pairs through the
      gate: retained, duplicate check on, in list order. */
  function PairOffers(pairs: seq<(string, string)>): (r: seq<Offer>)
    ensures |r| == |pairs|
    ensures forall i :: 0 <= i < |pairs| ==> r[i] == Offer(pairs[i].0, pairs[i].1, true, true)
  {
    seq(|pairs|, i requires 0 <= i < |pairs| => Offer(pairs[i].0, pairs[i].1, true, true))
  }
}
