/** The Go naming rules: the slug of a device/sensor pair, the identifiers derived from
    it, and the topics built from the MQTT options (mqttOpts.go, mqttDiscoveryRelatedFuncs.go
    and the identical topic functions of mqttProxy.go). */
module GoNaming {
  import opened Text

  /** The sensor alone when the device name is empty, otherwise name, delimiter and
      sensor; lower-cased either way. The sensor is kept even when empty. */
  function CalculateSlug(name: string, sensor: string, delim: string): (r: string)
    ensures IsLower(r)
    ensures name == "" ==> r == Lower(sensor)
    ensures name != "" ==> r == Lower(name) + Lower(delim) + Lower(sensor)
  {
    var slug := if name != "" then name + delim + sensor else sensor;
    LowerAppend(name + delim, sensor);
    LowerAppend(name, delim);
    Lower(slug)
  }

  /** The slug used inside state and command topics. */
  function TopicID(name: string, sensor: string): (r: string)
    ensures name == "" ==> r == Lower(sensor)
    ensures name != "" ==> r == Lower(name) + "/" + Lower(sensor)
  {
    assert Lower("/") == "/";
    CalculateSlug(name, sensor, "/")
  }

  /** The slug used as a discovery object identifier. */
  function ObjectID(name: string, sensor: string): (r: string)
    ensures name == "" ==> r == Lower(sensor)
    ensures name != "" ==> r == Lower(name) + "_" + Lower(sensor)
  {
    assert Lower("_") == "_";
    CalculateSlug(name, sensor, "_")
  }

  /** The discovery name, verbatim, a space, then the space-separated slug. */
  function ObjectName(discoveryName: string, name: string, sensor: string): (r: string)
    ensures |r| > |discoveryName|
    ensures r[..|discoveryName|] == discoveryName
    ensures r[|discoveryName|..] == " " + CalculateSlug(name, sensor, " ")
  {
    discoveryName + " " + CalculateSlug(name, sensor, " ")
  }

  /** The discovery name, verbatim, a dot, then the dot-separated slug. */
  function ObjectUniqueID(discoveryName: string, name: string, sensor: string): (r: string)
    ensures |r| > |discoveryName|
    ensures r[..|discoveryName|] == discoveryName
    ensures r[|discoveryName|..] == "." + CalculateSlug(name, sensor, ".")
  {
    discoveryName + "." + CalculateSlug(name, sensor, ".")
  }

  /** The device block of a Go discovery record (only the fields the clients set). */
  datatype Device = Device(identifiers: seq<string>, manufacturer: string, name: string)

  /** A Go discovery record: where it is announced and the fields the clients set;
      the other optional fields of the record keep their zero values and are not modelled. */
  datatype Discovery = Discovery(
    discoveryPrefix: string,
    component: string,
    nodeId: string,
    objectId: string,
    availabilityTopic: string,
    name: string,
    stateTopic: string,
    uniqueId: string,
    device: Device)

  /** The options shared by both Go clients (MQTTOpts and MQTTProxyConfig have the same fields). */
  datatype MqttOpts = MqttOpts(
    clientId: string,
    broker: string,
    username: string,
    password: string,
    topicPrefix: string,
    discovery: bool,
    discoveryPrefix: string,
    discoveryName: string)
  {
    /** The prefix, verbatim, then "/status". */
    function AvailabilityTopic(): (r: string)
      ensures |r| == |topicPrefix| + 7
      ensures r[..|topicPrefix|] == topicPrefix
      ensures r[|topicPrefix|..] == "/status"
    {
      topicPrefix + "/status"
    }

    /** The prefix (kept even when empty), the '/'-separated slug, then "/state". */
    function StateTopic(name: string, sensor: string): (r: string)
      ensures r == topicPrefix + "/" + TopicID(name, sensor) + "/state"
    {
      JoinThree(topicPrefix, TopicID(name, sensor), "state", "/");
      Join([topicPrefix, TopicID(name, sensor), "state"], "/")
    }

    /** The prefix (kept even when empty), the '/'-separated slug, then "/command". */
    function CommandTopic(name: string, sensor: string): (r: string)
      ensures r == topicPrefix + "/" + TopicID(name, sensor) + "/command"
    {
      JoinThree(topicPrefix, TopicID(name, sensor), "command", "/");
      Join([topicPrefix, TopicID(name, sensor), "command"], "/")
    }

    /** "{discoveryPrefix}/{component}/{nodeID}/{objectID}/config". */
    function DiscoveryTopic(component: string, nodeId: string, objectId: string): (r: string)
      ensures r == discoveryPrefix + "/" + component + "/" + nodeId + "/" + objectId + "/config"
      ensures ('/' !in discoveryPrefix && '/' !in component && '/' !in nodeId && '/' !in objectId) ==>
        Split(r, "/") == [discoveryPrefix, component, nodeId, objectId, "config"]
    {
      var r := Join([discoveryPrefix, component, nodeId, objectId, "config"], "/");
      JoinFive(discoveryPrefix, component, nodeId, objectId, "config", "/");
      assert r == discoveryPrefix + "/" + component + "/" + nodeId + "/" + objectId + "/" + "config";
      if '/' !in discoveryPrefix && '/' !in component && '/' !in nodeId && '/' !in objectId then
        SplitJoin([discoveryPrefix, component, nodeId, objectId, "config"], '/');
        r
      else r
    }
  }

  /** A prefix, a joined identifier and a last part split back into their pieces when
      none of them holds the separator. */
  lemma SplitsIntoParts(prefix: string, parts: seq<string>, last: string)
    requires parts != [] && '/' !in prefix && '/' !in last
    requires forall i :: 0 <= i < |parts| ==> '/' !in parts[i]
    ensures Split(prefix + "/" + Join(parts, "/") + "/" + last, "/") == [prefix] + parts + [last]
  {
    var all := [prefix] + parts + [last];
    assert Join([prefix] + parts, "/") == prefix + "/" + Join(parts, "/") by {
      assert ([prefix] + parts)[1..] == parts;
    }
    JoinAppend([prefix] + parts, last, "/");
    SplitJoin(all, '/');
  }

  /** For '/'-free parts, a state topic splits back into the prefix, the lower-cased
      name (when present), the lower-cased sensor and "state": different device/sensor
      pairs under one prefix get different state topics, up to case. */
  lemma StateTopicParses(opts: MqttOpts, name: string, sensor: string)
    requires '/' !in opts.topicPrefix && '/' !in name && '/' !in sensor
    ensures name == "" ==> Split(opts.StateTopic(name, sensor), "/") == [opts.topicPrefix, Lower(sensor), "state"]
    ensures name != "" ==> Split(opts.StateTopic(name, sensor), "/") == [opts.topicPrefix, Lower(name), Lower(sensor), "state"]
  {
    LowerKeepsNonLetterAbsent(name, '/');
    LowerKeepsNonLetterAbsent(sensor, '/');
    var parts := if name == "" then [Lower(sensor)] else [Lower(name), Lower(sensor)];
    if name != "" {
      JoinTwo(Lower(name), Lower(sensor), "/");
    }
    var p, id := opts.topicPrefix, TopicID(name, sensor);
    assert Join(parts, "/") == id;
    assert p + "/" + id + "/state" == p + "/" + id + "/" + "state";
    SplitsIntoParts(p, parts, "state");
  }

  /** Name, slug and separator, split back at the separator: the name, then the
      lower-cased device name when present, then the lower-cased sensor, provided
      none of the three holds the separator. */
  lemma IdentifierParses(discoveryName: string, name: string, sensor: string, c: char)
    requires !IsLetterChar(c) && c !in discoveryName && c !in name && c !in sensor
    ensures Split(discoveryName + [c] + CalculateSlug(name, sensor, [c]), [c])
      == [discoveryName] + (if name == "" then [Lower(sensor)] else [Lower(name), Lower(sensor)])
  {
    LowerKeepsNonLetterAbsent(name, c);
    LowerKeepsNonLetterAbsent(sensor, c);
    assert Lower([c]) == [c];
    var parts := [discoveryName] + (if name == "" then [Lower(sensor)] else [Lower(name), Lower(sensor)]);
    if name == "" {
      assert parts == [discoveryName, Lower(sensor)];
      JoinTwo(discoveryName, Lower(sensor), [c]);
    } else {
      assert parts == [discoveryName, Lower(name), Lower(sensor)];
      JoinThree(discoveryName, Lower(name), Lower(sensor), [c]);
    }
    SplitJoin(parts, c);
  }

  /** For space-free inputs an object name splits at its spaces into the discovery
      name, the lower-cased device name when present and the lower-cased sensor. */
  lemma ObjectNameParses(discoveryName: string, name: string, sensor: string)
    requires ' ' !in discoveryName && ' ' !in name && ' ' !in sensor
    ensures Split(ObjectName(discoveryName, name, sensor), " ")
      == [discoveryName] + (if name == "" then [Lower(sensor)] else [Lower(name), Lower(sensor)])
  {
    IdentifierParses(discoveryName, name, sensor, ' ');
  }

  /** For dot-free inputs a unique identifier splits at its dots into the discovery
      name, the lower-cased device name when present and the lower-cased sensor. */
  lemma ObjectUniqueIDParses(discoveryName: string, name: string, sensor: string)
    requires '.' !in discoveryName && '.' !in name && '.' !in sensor
    ensures Split(ObjectUniqueID(discoveryName, name, sensor), ".")
      == [discoveryName] + (if name == "" then [Lower(sensor)] else [Lower(name), Lower(sensor)])
  {
    IdentifierParses(discoveryName, name, sensor, '.');
  }

  /** The lower-case words of the unit tests are their own lower-case forms. */
  lemma LowerExamples()
    ensures Lower("name") == "name" && Lower("sensor") == "sensor"
    ensures Lower(" ") == " " && Lower(".") == "."
  {
  }

  /** The slug unit tests: name and sensor joined by the delimiter, or the sensor alone. */
  lemma CalculateSlugExamples()
    ensures CalculateSlug("name", "sensor", ".") == "name.sensor"
    ensures CalculateSlug("", "sensor", ".") == "sensor"
    ensures CalculateSlug("name", "", "/") == "name/"
  {
  }

  /** The identifier unit tests. */
  lemma IdentifierExamples()
    ensures TopicID("name", "sensor") == "name/sensor" && TopicID("", "sensor") == "sensor"
    ensures ObjectID("name", "sensor") == "name_sensor" && ObjectID("", "sensor") == "sensor"
  {
  }

  /** The object name unit tests. */
  lemma ObjectNameExamples()
    ensures ObjectName("dname", "name", "sensor") == "dname name sensor"
    ensures ObjectName("dname", "", "sensor") == "dname sensor"
  {
    LowerExamples();
  }

  /** The unique identifier unit tests. */
  lemma ObjectUniqueIDExamples()
    ensures ObjectUniqueID("dname", "name", "sensor") == "dname.name.sensor"
    ensures ObjectUniqueID("dname", "", "sensor") == "dname.sensor"
  {
    LowerExamples();
  }

  /** The discovery name is not lower-cased, unlike the slug after it. */
  lemma DiscoveryNameKeepsCase()
    ensures ObjectName("DName", "Name", "Sensor") == "DName name sensor"
  {
  }
}
