/** The C# naming rules: topics, the "messy string" join and the discovery record,
    as built by MQTTGenerator and by the identical helpers of the older MQTTManager. */
module Naming {
  import opened Text

  /** Home Assistant's default payloads for a boolean and for availability. */
  const On: string := "ON"
  const Off: string := "OFF"
  const Online: string := "online"
  const Offline: string := "offline"

  /** The device block of a discovery record. */
  datatype DiscoveryDevice = DiscoveryDevice(
    identifiers: seq<string>,
    name: string,
    swVersion: string,
    manufacturer: string)

  /** The fields of a discovery record that the builder fills in; every other
      field of the record keeps its empty default and is not modelled. */
  datatype Discovery = Discovery(
    name: string,
    availabilityTopic: string,
    stateTopic: string,
    commandTopic: string,
    uniqueId: string,
    device: DiscoveryDevice)

  /** What the device block reads from an assembly name; either part may be missing. */
  datatype AssemblyName = AssemblyName(name: Option<string>, version: Option<string>)

  /** The pieces joined by Stringify: the prefix when non-empty, the slug always
      (even when empty), the sensor when non-empty. */
  function Pieces(prefix: string, slug: string, sensor: string): seq<string>
  {
    (if prefix != "" then [prefix] else []) + [slug] + (if sensor != "" then [sensor] else [])
  }

  /** The lower-cased join of the pieces with the separator. */
  function Stringify(prefix: string, slug: string, sensor: string, sep: char): (r: string)
    ensures IsLower(r)
    ensures |r| == |Join(Pieces(prefix, slug, sensor), [sep])|
  {
    Lower(Join(Pieces(prefix, slug, sensor), [sep]))
  }

  /** For a separator that is not a letter, lower-casing the join is joining the
      lower-cased pieces. */
  lemma StringifyJoinsLoweredPieces(prefix: string, slug: string, sensor: string, sep: char)
    requires !IsLetterChar(sep)
    ensures Stringify(prefix, slug, sensor, sep) == Join(LowerAll(Pieces(prefix, slug, sensor)), [sep])
  {
    LowerJoin(Pieces(prefix, slug, sensor), sep);
  }

  /** The four shapes Stringify can produce, written out piece by piece. */
  lemma StringifyCases(prefix: string, slug: string, sensor: string, sep: char)
    requires !IsLetterChar(sep)
    ensures prefix == "" && sensor == "" ==>
      Stringify(prefix, slug, sensor, sep) == Lower(slug)
    ensures prefix != "" && sensor == "" ==>
      Stringify(prefix, slug, sensor, sep) == Lower(prefix) + [sep] + Lower(slug)
    ensures prefix == "" && sensor != "" ==>
      Stringify(prefix, slug, sensor, sep) == Lower(slug) + [sep] + Lower(sensor)
    ensures prefix != "" && sensor != "" ==>
      Stringify(prefix, slug, sensor, sep) == Lower(prefix) + [sep] + Lower(slug) + [sep] + Lower(sensor)
  {
    StringifyJoinsLoweredPieces(prefix, slug, sensor, sep);
    var ps := Pieces(prefix, slug, sensor);
    if prefix != "" && sensor == "" {
      assert ps == [prefix, slug];
      assert LowerAll(ps) == [Lower(prefix), Lower(slug)];
      JoinTwo(Lower(prefix), Lower(slug), [sep]);
    } else if prefix == "" && sensor != "" {
      assert ps == [slug, sensor];
      assert LowerAll(ps) == [Lower(slug), Lower(sensor)];
      JoinTwo(Lower(slug), Lower(sensor), [sep]);
    } else if prefix != "" && sensor != "" {
      assert ps == [prefix, slug, sensor];
      assert LowerAll(ps) == [Lower(prefix), Lower(slug), Lower(sensor)];
      JoinThree(Lower(prefix), Lower(slug), Lower(sensor), [sep]);
    } else {
      assert ps == [slug];
      assert LowerAll(ps) == [Lower(slug)];
    }
  }

  /** When the separator is not a letter and occurs in none of the pieces, splitting
      the result on it gives back the lower-cased pieces: nothing is lost or merged. */
  lemma StringifyParses(prefix: string, slug: string, sensor: string, sep: char)
    requires !IsLetterChar(sep)
    requires sep !in prefix && sep !in slug && sep !in sensor
    ensures Split(Stringify(prefix, slug, sensor, sep), [sep]) == LowerAll(Pieces(prefix, slug, sensor))
  {
    var ps := Pieces(prefix, slug, sensor);
    LowerJoin(ps, sep);
    forall i | 0 <= i < |ps| ensures sep !in LowerAll(ps)[i] {
      LowerKeepsNonLetterAbsent(ps[i], sep);
    }
    SplitJoin(LowerAll(ps), sep);
  }

  /** The C# generator: a topic prefix and a discovery name, fixed at construction. */
  datatype Generator = Generator(topicPrefix: string, discoveryName: string)
  {
    /** "ON" for true and "OFF" for false. */
    function BooleanOnOff(val: bool): (r: string)
      ensures val <==> r == On
      ensures !val <==> r == Off
    {
      if val then On else Off
    }

    /** The prefix, verbatim (neither lower-cased nor dropped when empty), then "/status". */
    function AvailabilityTopic(): (r: string)
      ensures |r| == |topicPrefix| + 7
      ensures r[..|topicPrefix|] == topicPrefix
      ensures r[|topicPrefix|..] == "/status"
    {
      topicPrefix + "/status"
    }

    /** The lower-cased prefix/slug/sensor path followed by "/state". */
    function StateTopic(slug: string, sensor: string): (r: string)
      ensures r == Stringify(topicPrefix, slug, sensor, '/') + "/state"
    {
      JoinTwo(Stringify(topicPrefix, slug, sensor, '/'), "state", "/");
      Join([Stringify(topicPrefix, slug, sensor, '/'), "state"], "/")
    }

    /** The lower-cased prefix/slug/sensor path followed by "/command". */
    function CommandTopic(slug: string, sensor: string): (r: string)
      ensures r == Stringify(topicPrefix, slug, sensor, '/') + "/command"
    {
      JoinTwo(Stringify(topicPrefix, slug, sensor, '/'), "command", "/");
      Join([Stringify(topicPrefix, slug, sensor, '/'), "command"], "/")
    }

    /** The discovery record for one slug/sensor pair. */
    function BuildDiscovery(slug: string, sensor: string, assembly: AssemblyName, hasCommand: bool): (r: Discovery)
      ensures r.name == Stringify(discoveryName, slug, sensor, ' ')
      ensures r.uniqueId == Stringify(discoveryName, slug, sensor, '.')
      ensures r.availabilityTopic == AvailabilityTopic()
      ensures r.stateTopic == StateTopic(slug, sensor)
      ensures hasCommand ==> r.commandTopic == CommandTopic(slug, sensor)
      ensures r.commandTopic != "" <==> hasCommand
      ensures r.device.identifiers == [r.availabilityTopic]
      ensures r.device.manufacturer == "twomqtt"
      ensures r.device.name == (if assembly.name.Some? then Lower(assembly.name.value) else "unknown") + "2mqtt"
      ensures r.device.swVersion == "v" + assembly.version.GetOr("0.0.0")
    {
      Discovery(
        name := Stringify(discoveryName, slug, sensor, ' '),
        availabilityTopic := AvailabilityTopic(),
        stateTopic := StateTopic(slug, sensor),
        commandTopic := if hasCommand then CommandTopic(slug, sensor) else "",
        uniqueId := Stringify(discoveryName, slug, sensor, '.'),
        device := DiscoveryDevice(
          identifiers := [AvailabilityTopic()],
          name := (match assembly.name case Some(n) => Lower(n) case None => "unknown") + "2mqtt",
          swVersion := "v" + (match assembly.version case Some(v) => v case None => "0.0.0"),
          manufacturer := "twomqtt"))
    }
  }

  lemma LowerAllPieces(prefix: string, slug: string, sensor: string)
    ensures LowerAll(Pieces(prefix, slug, sensor)) == Pieces(Lower(prefix), Lower(slug), Lower(sensor))
  {
    var ps := Pieces(prefix, slug, sensor);
    var qs := Pieces(Lower(prefix), Lower(slug), Lower(sensor));
    assert |ps| == |qs|;
    forall i | 0 <= i < |ps| ensures LowerAll(ps)[i] == qs[i] {
    }
  }

  /** Under one prefix, equal pieces mean equal slugs and sensors. */
  lemma PiecesInjective(prefix: string, slug1: string, sensor1: string, slug2: string, sensor2: string)
    requires Pieces(prefix, slug1, sensor1) == Pieces(prefix, slug2, sensor2)
    ensures slug1 == slug2 && sensor1 == sensor2
  {
    var p1 := Pieces(prefix, slug1, sensor1);
    var k := if prefix != "" then 1 else 0;
    assert p1[k] == slug1;
    if sensor1 != "" {
      assert p1[k + 1] == sensor1;
    }
  }

  /** Equal lower-cased pieces under one prefix mean equal slugs and sensors, up to case. */
  lemma PiecesDetermineSlugAndSensor(prefix: string, slug1: string, sensor1: string, slug2: string, sensor2: string)
    requires LowerAll(Pieces(prefix, slug1, sensor1)) == LowerAll(Pieces(prefix, slug2, sensor2))
    ensures Lower(slug1) == Lower(slug2) && Lower(sensor1) == Lower(sensor2)
  {
    LowerAllPieces(prefix, slug1, sensor1);
    LowerAllPieces(prefix, slug2, sensor2);
    PiecesInjective(Lower(prefix), Lower(slug1), Lower(sensor1), Lower(slug2), Lower(sensor2));
  }

  /** With a fixed prefix, state topics of '/'-free prefixes, slugs and sensors identify
      the pair up to case: two different pairs never share a state topic. */
  lemma StateTopicInjective(g: Generator, slug1: string, sensor1: string, slug2: string, sensor2: string)
    requires '/' !in g.topicPrefix
    requires '/' !in slug1 && '/' !in sensor1 && '/' !in slug2 && '/' !in sensor2
    requires g.StateTopic(slug1, sensor1) == g.StateTopic(slug2, sensor2)
    ensures Lower(slug1) == Lower(slug2) && Lower(sensor1) == Lower(sensor2)
  {
    CancelSuffix(Stringify(g.topicPrefix, slug1, sensor1, '/'), Stringify(g.topicPrefix, slug2, sensor2, '/'), "/state");
    StringifyParses(g.topicPrefix, slug1, sensor1, '/');
    StringifyParses(g.topicPrefix, slug2, sensor2, '/');
    PiecesDetermineSlugAndSensor(g.topicPrefix, slug1, sensor1, slug2, sensor2);
  }

  /** Availability, state and command topics never coincide, whatever the inputs:
      they end in "/status", "/state" and "/command" respectively. */
  lemma TopicKindsNeverCollide(g: Generator, slug1: string, sensor1: string, slug2: string, sensor2: string)
    ensures g.StateTopic(slug1, sensor1) != g.CommandTopic(slug2, sensor2)
    ensures g.StateTopic(slug1, sensor1) != g.AvailabilityTopic()
    ensures g.CommandTopic(slug2, sensor2) != g.AvailabilityTopic()
  {
    var s := g.StateTopic(slug1, sensor1);
    var c := g.CommandTopic(slug2, sensor2);
    var a := g.AvailabilityTopic();
    assert s[|s| - 1] == 'e';
    assert c[|c| - 1] == 'd';
    assert a[|a| - 1] == 's';
  }

  /** The slug is always a piece, even when empty: prefix "p", slug "", sensor "s" gives "p//s". */
  lemma EmptySlugKeepsItsPlace()
    ensures Stringify("p", "", "s", '/') == "p//s"
  {
    StringifyCases("p", "", "s", '/');
  }
}
