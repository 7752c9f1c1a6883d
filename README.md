# twomqtt, modelled in Dafny

twomqtt is a runtime for "source to MQTT" bridges. It has two generations: a C#
library (TwoMQTT) and an older Go package (twomqtt). A bridge reads data from some
source system and publishes it on MQTT topics named for Home Assistant. It also
announces Home Assistant discovery records and hands inbound MQTT commands back to
the source. This project models the logic of that runtime that does not depend on
the network:

- **Naming** (`Naming`, `GoNaming`, `NamingComparison`, `NamingExamples`, `Text`).
  This covers the C# `MQTTGenerator` and the identical helpers of the older C#
  `MQTTManager`: `Stringify`, the state, command and availability topics,
  `BooleanOnOff` and `BuildDiscovery`. It also covers the Go slug, identifier and
  topic functions of `mqttOpts.go`, `mqttDiscoveryRelatedFuncs.go` and
  `mqttProxy.go`. Topics are proved to parse back into their parts, different kinds
  of topic never collide, and the unit tests' expected strings are proved. The
  places where the two generations name the same sensor differently are proved too.
- **The publish-deduplication gate** (`Dedup`). Every publisher keeps a per-topic
  cache of the last payload it published: `KnownMessages` in C#, `lastPublished` in
  Go. A publish is skipped when the duplicate check is asked for and the cache
  already holds that payload for the topic.
  - The gate is one fold over a sequence of offers.
  - On a topic where every offer is checked, the broker sees the offered payloads
    with consecutive repeats collapsed.
  - On a topic where no offer is checked, the broker sees every payload.
  - Each topic is independent of the others, and the cache always holds the last
    payload offered.
- **The MQTT managers and clients** (`MqttManager`, `LegacyMqttManager`,
  `ManagerOptions`, `GoMqtt`, `GoProxy`). Each is a class whose cache, broker log
  and subscriptions are fields that its methods update. Every method is proved
  against the gate's fold. Each class also keeps track of the messages it sends past the
  gate (availability, and discovery in C#): its broker log holds as many
  messages as the gated and the direct ones together, and on every topic that
  received nothing directly it shows exactly the gated payloads, so there the
  broker log is what the gate's theorems say. The discovery, availability,
  will and connect-order rules are proved as well.
- **The source pipeline** (`SourceLiaisons`, `SourceManager`,
  `LegacySourceManager`, `PollingManager`, `Ipc`). A poll round is one fetch per
  question. Null results are dropped, and the survivors are written in order to the
  outgoing channel. Inbound commands are drained first in, first out.
- **Small parsers and start-up rules** (`KvParser`, `ExampleLiaison`, `Console`).
  These are the Go `key:value,key:value` parser, the example bridge's
  `MapData`/`Discoveries`, the `version` argument check and the merging of
  environment defaults.

Asynchrony is sequentialised:

- A channel is a `seq`, oldest first.
- A cancellable loop takes the list of rounds that start before cancellation is
  observed.
- The throttler's delay is a counter.
- Callbacks the client fires are methods called in the order the source registers
  them.

The broker is an append-only log of messages. A liaison's hooks (`MapData`,
`MapCommand`, `Subscriptions`, `Discoveries`, a fetch, JSON serialisation) are
function-valued parameters.

## Model

| member | source | states |
|---|---|---|
| Text.Lower | TwoMQTT/Utils/MQTTGenerator.cs:90 | ASCII lower-casing keeps the length and lower-cases each character on its own. No upper-case letter is left, and non-letters are unchanged. |
| Text.LowerJoin | TwoMQTT/Utils/MQTTGenerator.cs:90 | For a separator that is not a letter, lower-casing a join is the same as joining the lower-cased pieces. |
| Text.IndexOf | simpleKVParser.go:19 | The result is the first position where the separator occurs, or None exactly when it occurs nowhere. |
| Text.JoinSplit | simpleKVParser.go:17-19 | Joining the pieces of a split with the same separator gives back the input. |
| Text.SplitJoin | mqttOpts.go:26-28 | Joining pieces that do not contain a one-character separator, and then splitting on it, gives back the pieces. |
| Text.SplitPiecesAreFree | simpleKVParser.go:17-19 | No piece produced by a split contains the separator. |
| Text.ReplaceColons | TwoMQTT/ConsoleProgram.cs:77 | The rewritten key holds no ':'. A key without ':' is unchanged. |
| Text.ReplaceColonsAppend | TwoMQTT/ConsoleProgram.cs:77 | The rewrite of two texts put together is the two rewrites put together. |
| Text.ReplaceColonsColon | TwoMQTT/ConsoleProgram.cs:77 | Each ':' becomes "__", and the text on either side is rewritten on its own. |
| Text.JoinFive | mqttOpts.go:35-37 | Five parts joined by a separator are the parts with the separator between each pair. |
| Naming.Stringify | TwoMQTT/Utils/MQTTGenerator.cs:74-91 | The result is lower-case, and as long as the join of the pieces. |
| Naming.StringifyJoinsLoweredPieces | TwoMQTT/Utils/MQTTGenerator.cs:76-90 | Stringify is the separator-join of the lower-cased pieces: the prefix if non-empty, always the slug, the sensor if non-empty. |
| Naming.StringifyCases | TwoMQTT/Utils/MQTTGenerator.cs:76-90 | Each of the four present/absent combinations of prefix and sensor, written out piece by piece. |
| Naming.StringifyParses | TwoMQTT/Utils/MQTTGenerator.cs:74-91 | If no piece contains the separator, splitting the result gives back exactly the lower-cased pieces. |
| Naming.EmptySlugKeepsItsPlace | TwoMQTT/Utils/MQTTGenerator.cs:83 | The slug is always a piece, even when empty: ("p","","s") gives "p//s". |
| Naming.Generator.BooleanOnOff | TwoMQTT/Utils/MQTTGenerator.cs:58 | The result is "ON" if and only if the value is true, and "OFF" if and only if it is false. |
| Naming.Generator.AvailabilityTopic | TwoMQTT/Utils/MQTTGenerator.cs:61 | The prefix, verbatim (not lower-cased, and kept when empty), followed by "/status". |
| Naming.Generator.StateTopic | TwoMQTT/Utils/MQTTGenerator.cs:64-65 | The lower-cased prefix/slug/sensor path, then "/state". |
| Naming.Generator.CommandTopic | TwoMQTT/Utils/MQTTGenerator.cs:69-70 | The lower-cased prefix/slug/sensor path, then "/command". |
| Naming.Generator.BuildDiscovery | TwoMQTT/Utils/MQTTGenerator.cs:94-111 | Sets the following fields; all else keeps its default: <br>• name from Stringify with ' '; unique id from Stringify with '.'; <br>• the availability and state topics; a command topic if and only if hasCommand; <br>• device: identifiers [availability topic], manufacturer "twomqtt", name = lower-cased assembly name (or "unknown") + "2mqtt", version "v" + version (or "0.0.0"). |
| Naming.PiecesInjective | TwoMQTT/Utils/MQTTGenerator.cs:76-88 | Under one prefix, equal piece lists mean equal slugs and sensors. |
| Naming.PiecesDetermineSlugAndSensor | TwoMQTT/Utils/MQTTGenerator.cs:76-90 | Under one prefix, equal lower-cased pieces mean the slugs and sensors agree up to case. |
| Naming.StateTopicInjective | TwoMQTT/Utils/MQTTGenerator.cs:64-65 | For '/'-free parts, two slug/sensor pairs that share a state topic agree up to case. |
| Naming.TopicKindsNeverCollide | TwoMQTT/Utils/MQTTGenerator.cs:61-70 | For any inputs, the state, command and availability topics are pairwise different. |
| NamingExamples.AvailabilityExamples | TwoMQTTTest/Utils/MQTTGeneratorTest.cs:11-40 | The unit tests' "ON"/"OFF", "/status" and "test/status". |
| NamingExamples.StringifySlugExample | TwoMQTTTest/Utils/MQTTGeneratorTest.cs:77-91 | ("","slug","",'/') gives "slug". |
| NamingExamples.StringifyPrefixSlugExample | TwoMQTTTest/Utils/MQTTGeneratorTest.cs:77-91 | ("test","slug","",'/') gives "test/slug". |
| NamingExamples.StringifyPrefixSlugSensorExample | TwoMQTTTest/Utils/MQTTGeneratorTest.cs:77-91 | ("test","slug","sensor",'/') gives "test/slug/sensor". |
| NamingExamples.StateTopicExamples | TwoMQTTTest/Utils/MQTTGeneratorTest.cs:43-57 | "slug/state", "test/slug/state" and "test/slug/sensor/state". |
| NamingExamples.CommandTopicExamples | TwoMQTTTest/Utils/MQTTGeneratorTest.cs:60-74 | "slug/command", "test/slug/command" and "test/slug/sensor/command". |
| GoNaming.CalculateSlug | mqttOpts.go:39-46 | The result is lower-case. It is the lower-cased sensor alone when the name is empty, and otherwise name, delimiter and sensor. The sensor is kept even when empty. |
| GoNaming.TopicID | mqttOpts.go:48-50 | The slug with '/' as delimiter. |
| GoNaming.ObjectID | mqttOpts.go:52-54 | The slug with '_' as delimiter. |
| GoNaming.ObjectName | mqttOpts.go:56-58 | The discovery name verbatim (not lower-cased), then " " and the slug with ' '. |
| GoNaming.ObjectUniqueID | mqttOpts.go:60-62 | The discovery name verbatim, then "." and the slug with '.'. |
| GoNaming.MqttOpts.AvailabilityTopic | mqttOpts.go:21-23 | The prefix verbatim, then "/status". |
| GoNaming.MqttOpts.StateTopic | mqttOpts.go:26-28 | The prefix (kept when empty), "/", the '/'-slug, then "/state". |
| GoNaming.MqttOpts.CommandTopic | mqttOpts.go:31-33 | The prefix (kept when empty), "/", the '/'-slug, then "/command". |
| GoNaming.MqttOpts.DiscoveryTopic | mqttOpts.go:35-37 | "{discoveryPrefix}/{component}/{nodeId}/{objectId}/config" for any parts. For '/'-free parts, the topic splits into exactly [discovery prefix, component, node id, object id, "config"]. |
| GoNaming.SplitsIntoParts | mqttOpts.go:26-33 | prefix/joined parts/last splits back into its parts when none of them holds '/'. |
| GoNaming.StateTopicParses | mqttOpts.go:26-28 | For '/'-free inputs, a state topic splits into the prefix, the lower-cased name if present, the lower-cased sensor, and "state". |
| GoNaming.IdentifierParses | mqttDiscoveryRelatedFuncs.go:38-44 | Discovery name, separator and slug split back at a non-letter separator into the discovery name, the lower-cased device name when present and the lower-cased sensor, when none of them holds the separator. |
| GoNaming.ObjectNameParses | mqttDiscoveryRelatedFuncs.go:38-40 | For space-free inputs, an object name splits at its spaces into [discovery name] + [lower-cased name, if any] + [lower-cased sensor]. Different devices and sensors get different names, up to case. |
| GoNaming.ObjectUniqueIDParses | mqttDiscoveryRelatedFuncs.go:42-44 | For dot-free inputs, a unique ID splits at its dots into [discovery name] + [lower-cased name, if any] + [lower-cased sensor]. |
| GoNaming.LowerExamples | mqttOpts_test.go:7-34 | The test words are already lower-case. |
| GoNaming.CalculateSlugExamples | mqttOpts.go:39-46 | The unit tests' "name.sensor" and "sensor", and "name/" for an empty sensor, which the code keeps. |
| GoNaming.IdentifierExamples | mqttDiscoveryRelatedFuncs_test.go:36-86 | "name/sensor", "sensor", "name_sensor", "sensor". |
| GoNaming.ObjectNameExamples | mqttDiscoveryRelatedFuncs_test.go:88-115 | "dname name sensor" and "dname sensor". |
| GoNaming.ObjectUniqueIDExamples | mqttDiscoveryRelatedFuncs_test.go:117-145 | "dname.name.sensor" and "dname.sensor". |
| GoNaming.DiscoveryNameKeepsCase | mqttDiscoveryRelatedFuncs.go:38-40 | Only the slug is lower-cased: ("DName","Name","Sensor") gives "DName name sensor". |
| NamingComparison.StateTopicsAgree | mqttOpts.go:26-28 | With a non-empty lower-case prefix and both parts present, the C# and Go state topics are equal. |
| NamingComparison.EmptyPrefixDiverges | TwoMQTT/Utils/MQTTGenerator.cs:64-65 | With an empty prefix, C# drops it ("n/s/state") and Go keeps it ("/n/s/state"). |
| NamingComparison.EmptySensorDiverges | mqttOpts.go:39-46 | With an empty sensor, C# drops it ("p/n/state") and Go keeps its delimiter ("p/n//state"). |
| NamingComparison.PrefixCaseDiverges | TwoMQTT/Utils/MQTTGenerator.cs:90 | C# lower-cases the prefix ("home/n/s/state"); Go keeps it ("Home/n/s/state"). |
| NamingComparison.CSharpLowerCasesPrefix | TwoMQTT/Utils/MQTTGenerator.cs:74-91 | "Home" becomes "home" in a C# state topic. |
| NamingComparison.GoKeepsPrefix | mqttOpts.go:26-28 | "Home" stays "Home" in a Go state topic. |
| Dedup.Emitted | TwoMQTT/Managers/MQTTManager.cs:296-315 | An offer sends nothing exactly when it is suppressed, and otherwise sends its own message. |
| Dedup.Remember | TwoMQTT/Managers/MQTTManager.cs:314 | After an offer, the cache maps its topic to its payload, and every other topic's entry is unchanged. A suppressed offer leaves the cache as it was. |
| Dedup.NoneCheckedExtend | mqttProxy.go:70-77 | An offer that does not ask for the check on a topic keeps "no offer on it is checked". |
| Dedup.CacheAfterAppend | TwoMQTT/Core/Managers/MQTTManager.cs:362-371 | The cache after a+b is the cache after b, starting from the cache after a. |
| Dedup.SentAppend | TwoMQTT/Core/Managers/MQTTManager.cs:362-371 | What a+b sends is what a sends, followed by what b sends from the cache a leaves. |
| Dedup.SentLast | TwoMQTT/Core/Managers/MQTTManager.cs:362-371 | The last offer is processed after all the others, from the cache they leave. |
| Dedup.SentLastOfAppend | TwoMQTT/Core/Managers/MQTTManager.cs:362-371 | The same for a concatenation that ends in a non-empty part. |
| Dedup.ProcessedInTurn | TwoMQTT/Managers/MQTTManager.cs:127-139 | Processing a and then b, with the history and log kept, is processing a+b. |
| Dedup.ProcessedOneMore | mqtt.go:86-112 | One more offer extends the history, the log and the cache as the fold does. |
| Dedup.ProcessedPrefix | TwoMQTT/Core/Managers/MQTTManager.cs:365-368 | The same for a loop that walks a list of offers by index. |
| Dedup.SentExtend | mqtt.go:93-106 | One more offer appends its emission to what was sent, and updates the cache with Remember. |
| Dedup.PayloadsOnAppend | TwoMQTT/Managers/MQTTManager.cs:296-315 | The payloads seen on a topic distribute over concatenation of the log. |
| Dedup.AgreesOffDirectTopicsEmpty | TwoMQTT/Managers/MQTTManager.cs:296-315 | An empty log agrees with no gated and no direct messages. |
| Dedup.GatedSendKeepsAgreement | TwoMQTT/Managers/MQTTManager.cs:296-315 | Messages the gate lets through, added to the log and the gated messages alike, keep the log's length the sum of both and its payloads on undirected topics the gated ones. |
| Dedup.DirectSendKeepsAgreement | TwoMQTT/Managers/MQTTManager.cs:184-199 | Messages sent past the gate, added to the log and the direct messages alike, keep the log's length the sum of both and leave the other topics' payloads alone; their topics leave the gate's guarantee. |
| Dedup.CacheHoldsLastOffer | mqtt.go:106 | After any offers, the cache holds for each topic the last payload offered on it, whether or not that offer was suppressed. A topic with no offers keeps its entry. |
| Dedup.CollapseSnoc | TwoMQTT/Managers/MQTTManager.cs:298 | Collapsing one more payload adds it unless it repeats the last one. |
| Dedup.GateStep | TwoMQTT/Managers/MQTTManager.cs:296-315 | One checked offer extends a topic's collapsed history exactly as the gate publishes. |
| Dedup.AllCheckedPrefix | TwoMQTT/Managers/MQTTManager.cs:298 | "Every offer on t is checked" holds for each prefix and for the last offer. |
| Dedup.GatedTopicSeesCollapsed | TwoMQTT/Managers/MQTTManager.cs:117 | From an empty cache, on a topic whose every offer is checked, the broker receives the offered payloads with consecutive repeats collapsed. The first publish always happens, and non-consecutive repeats are published again. |
| Dedup.GatedOneMore | TwoMQTT/Managers/MQTTManager.cs:296-315 | The step of that invariant. |
| Dedup.UncheckedTopicSeesEverything | mqtt.go:93-106 | On a topic where no offer asks for the check, every offered payload reaches the broker, in order. |
| Dedup.TopicsAreIndependent | TwoMQTT/Managers/MQTTManager.cs:314 | What a topic receives, and its cache entry, depend only on the offers on that topic. |
| Dedup.CacheOnTopicIsIndependent | TwoMQTT/Managers/MQTTManager.cs:314 | A topic's cache entry depends only on the offers on that topic. |
| Dedup.SentComesFromOffers | TwoMQTT/Managers/MQTTManager.cs:304-312 | The gate sends no more messages than there are offers, and each sent message is the message of some offer. |
| Dedup.CollapseProperties | TwoMQTT/Managers/MQTTManager.cs:298 | Collapsing never lengthens a sequence. It keeps the first and the last element, and leaves no two equal neighbours. |
| Dedup.CollapseExamples | TwoMQTT/Managers/MQTTManager.cs:298 | ["a","b","a"] is kept whole; ["a","a"] becomes ["a"]. |
| ManagerOptions.Options.DiscoveryTopic | TwoMQTT/Managers/MQTTManager.cs:269 | "{prefix}/{type}/{name}/{Stringify("",slug,sensor,'_')}/config" for any parts. For '/'-free parts it splits back into those five parts. |
| ManagerOptions.Options.DiscoveryMessage | TwoMQTT/Managers/MQTTManager.cs:255-275 | A retained message with the serialised record, on the entry's discovery topic. |
| ManagerOptions.Options.DiscoveryMessages | TwoMQTT/Managers/MQTTManager.cs:237-250 | One discovery message per entry, in order. |
| ManagerOptions.Options.Client | TwoMQTT/Managers/MQTTManager.cs:159-177 | The broker address; credentials if and only if asked for and the user name is non-empty; the retained "offline" will on the availability topic. |
| ManagerOptions.DefaultOptions | TwoMQTT/Models/MQTTManagerOptions.cs:6-16 | Broker "test.mosquitto.org", empty prefix, discovery enabled, prefix "homeassistant", empty discovery name. |
| ManagerOptions.PairOffers | TwoMQTT/Core/Managers/MQTTManager.cs:362-371 | One retained, checked offer per pair, in list order. |
| MqttManager.Manager.constructor | TwoMQTT/Managers/MQTTManager.cs:38-69 | Empty cache, log, subscriptions and command channel, and no connection. |
| MqttManager.Manager.Publish | TwoMQTT/Managers/MQTTManager.cs:296-315 | With the payload already cached, nothing is published and the cache is unchanged. Otherwise the message is published retained and cached, and no other topic's entry changes. This is one step of the gate's fold, and the fold invariant is kept. |
| MqttManager.Manager.PublishPairs | TwoMQTT/Managers/MQTTManager.cs:130-135 | Publishes a list of pairs in order; the log and cache are the gate's fold over them. |
| MqttManager.Manager.ReadIncoming | TwoMQTT/Managers/MQTTManager.cs:124-141 | Every item read is mapped, and its pairs go through the gate, item after item and pair after pair. |
| MqttManager.Manager.DataOffersStep | TwoMQTT/Managers/MQTTManager.cs:127-135 | One more item adds its mapped pairs' offers. |
| MqttManager.Manager.MessageReceived | TwoMQTT/Managers/MQTTManager.cs:206-222 | Every mapped command is written in order, then the raw handler is called exactly once with the same topic and payload. Nothing is published, and no topic is special. |
| MqttManager.Manager.HandleSubscribe | TwoMQTT/Managers/MQTTManager.cs:228-232 | Subscribes to exactly the liaison's topics. |
| MqttManager.Manager.PublishDiscovery | TwoMQTT/Managers/MQTTManager.cs:255-275 | One retained message on the discovery topic, straight to the client and recorded as direct; the cache is untouched. |
| MqttManager.Manager.HandleDiscovery | TwoMQTT/Managers/MQTTManager.cs:237-250 | Nothing when discovery is disabled. Otherwise one message per entry, in order, bypassing the gate: they are the new direct messages. |
| MqttManager.Manager.Connect | TwoMQTT/Managers/MQTTManager.cs:159-177 | Connects with credentials only for a non-empty user name, and with the retained "offline" will on the availability topic. |
| MqttManager.Manager.OnConnected | TwoMQTT/Managers/MQTTManager.cs:184-199 | "online", retained, on the availability topic, as a direct message; the cache is neither read nor updated. |
| MqttManager.Manager.Setup | TwoMQTT/Managers/MQTTManager.cs:143-154 | After setup: connected, subscribed, and discovery announced if enabled. |
| MqttManager.Manager.GatedTopicSeesCollapsed | TwoMQTT/Managers/MQTTManager.cs:117 | For the manager's own state, each topic's gated payloads are its offers with consecutive repeats collapsed. On a topic that received no direct message, that is what the client's log shows. |
| LegacyMqttManager.Manager.constructor | TwoMQTT/Core/Managers/MQTTManager.cs:38-57 | Empty cache (KnownMessages), log and subscriptions. |
| LegacyMqttManager.Manager.Names | TwoMQTT/Core/Managers/MQTTManager.cs:378-418 | The naming helpers are the generator's over the options' prefix and discovery name; the availability topic is "{TopicPrefix}/status". |
| LegacyMqttManager.Manager.Publish | TwoMQTT/Core/Managers/MQTTManager.cs:340-360 | Skips when the cached payload is equal. Otherwise it publishes retained, then stores topic→payload. This is one step of the gate's fold. |
| LegacyMqttManager.Manager.PublishAll | TwoMQTT/Core/Managers/MQTTManager.cs:362-371 | One single-message publish per pair, in list order: the log and cache are the fold over the pairs. |
| LegacyMqttManager.Manager.HandleSubscribe | TwoMQTT/Core/Managers/MQTTManager.cs:194-198 | Subscribes to the hook's topics; a null list subscribes to nothing. |
| LegacyMqttManager.Manager.PublishDiscovery | TwoMQTT/Core/Managers/MQTTManager.cs:254-275 | One retained message on the discovery topic, straight to the client and recorded as direct. |
| LegacyMqttManager.Manager.HandleDiscovery | TwoMQTT/Core/Managers/MQTTManager.cs:210-223 | Nothing when disabled or when the hook returns null. Otherwise one message per entry, in order. |
| LegacyMqttManager.Manager.Connect | TwoMQTT/Core/Managers/MQTTManager.cs:130-148 | No credentials; the retained "offline" will on "{TopicPrefix}/status". |
| LegacyMqttManager.Manager.OnConnected | TwoMQTT/Core/Managers/MQTTManager.cs:155-171 | "online", retained, on "{TopicPrefix}/status", outside the gate, as a direct message. |
| LegacyMqttManager.Manager.GatedTopicSeesCollapsed | TwoMQTT/Core/Managers/MQTTManager.cs:340-360 | Each topic's gated payloads are its offers with consecutive repeats collapsed. On a topic that received no direct message, that is what the client's log shows. |
| GoMqtt.AsEvents | mqtt.go:86-112 | One trace event per message, in order. |
| GoMqtt.AsEventsAppend | mqtt.go:86-112 | Trace events distribute over concatenation. |
| GoMqtt.SendsAppend | mqtt.go:86-112 | The messages sent by two traces put together are those of each, in order. |
| GoMqtt.SendsAsEvents | mqtt.go:86-112 | A trace made of messages sends exactly those messages. |
| GoMqtt.GatedTraceStep | mqtt.go:86-112 | Messages the gate lets through, appended to the trace, keep its messages as many as the gated and direct ones together, with the gated payloads on every topic without a direct message. |
| GoMqtt.InitialOptions | mqtt.go:71-78 | The broker, client ID, user name and password are copied from the options, the credentials even when empty. The will is "offline", retained, on "{TopicPrefix}/status". |
| GoMqtt.TraceOneMore | mqtt.go:195-212 | One more offer extends the history, trace and cache as the fold does. |
| GoMqtt.AttemptsUntilConnected | mqtt.go:152-170 | The attempt count stops at the first success, and no earlier attempt succeeded. With no success it is all the attempts. |
| GoMqtt.DiscoveryOffers | mqtt.go:195-212 | One retained, checked offer per record: its serialisation on its discovery topic, in order. |
| GoMqtt.Client.constructor | mqtt.go:26 | No handlers, no client, an empty cache and an empty trace. |
| GoMqtt.Client.SetDiscoveryHandler | mqtt.go:35-67 | The discovery handler is set. |
| GoMqtt.Client.SetSubscribeHandler | mqtt.go:35-67 | The subscribe handler is set. |
| GoMqtt.Client.SetReadIncomingChannelHandler | mqtt.go:35-67 | The read handler is set. |
| GoMqtt.Client.SetConnectHandler | mqtt.go:35-67 | The connect handler is set. |
| GoMqtt.Client.SetDisconnectHandler | mqtt.go:35-67 | The disconnect handler is set. |
| GoMqtt.Client.Initialize | mqtt.go:70-83 | The client is created with the initial options: broker, client ID, credentials always set, and the "offline" will. |
| GoMqtt.Client.PublishWithOpts | mqtt.go:86-112 | With the check on and the payload cached, nothing is sent, and an empty message is returned. Otherwise the payload is sent and stored (even when the check is off), and the message is returned. This is one step of the gate's fold. |
| GoMqtt.Client.Publish | mqtt.go:115-120 | PublishWithOpts, retained, with the check on. |
| GoMqtt.Client.PublishDiscovery | mqtt.go:195-212 | Nothing without a handler. Otherwise every record goes through Publish, in order, on its discovery topic. |
| GoMqtt.Client.PublishEach | mqtt.go:203-211 | The loop over records: the trace and cache are the fold over their offers. |
| GoMqtt.Client.OnConnect | mqtt.go:214-232 | In order: "online" retained on the availability topic (outside the cache, as a direct message), then discovery, then the subscribe handler if set, then the connect handler if set. The offers and the cache change exactly as the discovery records' fold, and not at all without a discovery handler. |
| GoMqtt.Client.RunConnectionHandlers | mqtt.go:224-231 | The subscribe handler if set, then the connect handler if set; no message is sent. |
| GoMqtt.Client.OnDisconnect | mqtt.go:234-243 | The disconnect handler if set; no message is sent. |
| GoMqtt.Client.Run | mqtt.go:136-171 | Starts the read handler if set, then retries Connect until the first success. It is connected if and only if some attempt succeeds. |
| GoMqtt.Client.CheckedTopicSeesCollapsed | mqtt.go:93-98 | On a topic where every publish is checked, the gated payloads are the offered ones with consecutive repeats collapsed. On a topic that received no direct message, that is what the trace sent. |
| GoMqtt.Client.UncheckedTopicSeesEverything | mqtt.go:93-106 | With DuplicateCheck off on a topic, every payload goes through the gate, and the trace sends all of them on a topic that received no direct message. |
| GoMqtt.Client.CacheHoldsLastOffer | mqtt.go:106 | lastPublished holds the last payload offered on a topic, checked or not. |
| GoProxy.ProxyOffer | mqttProxy.go:70-77 | The offer asks for the check if and only if DuplicateCheck is set and the topic is not the availability topic. |
| GoProxy.NewDiscovery | mqttProxy.go:158-176 | NodeID = discovery name, ObjectID, Name and UniqueID from the Go identifier rules, the availability and state topics, and a device with identifiers [availability topic] and manufacturer "twomqtt". |
| GoProxy.AnnouncedOn | mqttProxy.go:98-104 | The topic is "{discovery prefix}/{component}/{node id}/{object id}/config" for every record; for '/'-free parts it splits into [discovery prefix, component, node id, object id, "config"]. |
| GoProxy.NewDiscoveryAnnouncedOn | mqttProxy.go:158-176 | A record the proxy builds is announced under the configured prefix, the component type, the discovery name and the object id of the name and sensor. |
| GoProxy.ProxyRunAttempts | mqttProxy.go:137-154 | Run as written makes at most one Connect attempt, and exactly one when the broker answers. |
| GoProxy.ProxyRunAgreesWithRetryingIff | mqttProxy.go:137-154 | Run as written agrees with the retrying loop if and only if the first answer decides the outcome. |
| GoProxy.ProxyRunGivesUpAfterOneRefusal | mqttProxy.go:137-154 | A broker answering [refuse, accept]: as written, one attempt and not connected; retrying, two attempts. |
| GoProxy.Proxy.constructor | mqttProxy.go:22-27 | No client, an empty cache and an empty log. |
| GoProxy.Proxy.Initialize | mqttProxy.go:30-41 | The client is created with the same initial options as the client wrapper's: broker, client ID, credentials always set, and the "offline" will. |
| GoProxy.Proxy.PublishWithOpts | mqttProxy.go:63-87 | Suppressed only when the check is asked for, the topic is not the availability topic and the cache holds the payload. Otherwise the payload is sent and stored, whatever the broker answers. |
| GoProxy.Proxy.Publish | mqttProxy.go:90-95 | PublishWithOpts, retained, with the check on. |
| GoProxy.Proxy.PublishDiscovery | mqttProxy.go:98-104 | The serialised record through Publish, on the topic the record itself names. |
| GoProxy.Proxy.LastPublishedOnTopic | mqttProxy.go:107-113 | The last payload offered on the topic, or "" when none was. |
| GoProxy.Proxy.AvailabilityNeverSuppressed | mqttProxy.go:70-77 | Every payload offered on the availability topic reaches the broker, repeats included. |
| GoProxy.Proxy.CheckedTopicSeesCollapsed | mqttProxy.go:70-86 | On other topics whose every publish is checked, consecutive repeats are collapsed. |
| GoProxy.Proxy.Run | mqttProxy.go:129-155 | As written: the attempt count and connection outcome of a single attempt. |
| GoProxy.Proxy.RunRetrying | mqttProxy.go:137-154 | As intended: retries until the first success, and is connected if and only if some attempt succeeds. |
| KvParser.SimpleKVMapParser | simpleKVParser.go:6-13 | An empty key/value separator becomes ":", and an empty item separator becomes ","; given separators are kept. |
| KvParser.Entry | simpleKVParser.go:19-24 | An item without the separator maps its whole text to "". |
| KvParser.EntryOfPair | simpleKVParser.go:19-24 | An item "key<sep>value" with a one-character separator found in neither part reads back as exactly that key and value. |
| KvParser.EntryPartsAreFree | simpleKVParser.go:19-26 | Neither a key nor a value contains the separator. |
| KvParser.Parse | simpleKVParser.go:15-29 | The closure's loop yields the map of the items' entries, later items overwriting earlier ones. |
| KvParser.KeyPresentIffSomeItemHasIt | simpleKVParser.go:16-27 | A key is in the result if and only if some item has it. |
| KvParser.PresentKeyHasItem | simpleKVParser.go:26 | A present key comes from some item. |
| KvParser.ItemKeyIsPresent | simpleKVParser.go:26 | Every item's key is present. |
| KvParser.LastItemWins | simpleKVParser.go:26 | A key's value is that of the last item with that key. |
| KvParser.EmptyInputYieldsEmptyKey | simpleKVParser.go:15-29 | The empty input yields {"": ""}. |
| KvParser.ItemWithoutSeparatorExample | simpleKVParser.go:21-24 | "a" gives ("a", ""). |
| KvParser.SecondSeparatorCutsValueExample | simpleKVParser.go:19-26 | "a:1:2" gives ("a", "1"). |
| SourceLiaisons.FetchAll | TwoMQTT/Liasons/PollingSourceLiasonBase.cs:36-44 | One element per question, the i-th being the fetch of the i-th question; nulls are kept. |
| SourceLiaisons.FetchAllAppend | TwoMQTT/Core/Liasons/SourceLiasonBase.cs:37-45 | Fetching two question lists in turn is fetching their concatenation. |
| SourceLiaisons.PushedDataSurvive | TwoMQTT/Liasons/PushSourceLiasonBase.cs:29-36 | One mapped element per pushed response, in order. What survives the null filter is exactly the non-null mappings. |
| SourceLiaisons.SurvivorsAppend | TwoMQTT/Managers/SourceManager.cs:111-121 | The null filter distributes over concatenation. |
| SourceLiaisons.SurvivorsAreThePresentResults | TwoMQTT/Managers/SourceManager.cs:111-116 | A value is forwarded if and only if it was yielded non-null. |
| SourceLiaisons.SurvivorsCount | TwoMQTT/Managers/SourceManager.cs:111-121 | Exactly as many values are forwarded as there are non-null results. |
| SourceLiaisons.SurvivorsWithoutNulls | TwoMQTT/Managers/SourceManager.cs:111-121 | With no nulls, every result is forwarded, in order. |
| SourceLiaisons.AllSurvivorsFiltersEverything | TwoMQTT/Managers/SourceManager.cs:92-101 | Filtering round by round is filtering everything yielded: round boundaries drop and reorder nothing. |
| SourceLiaisons.MappedSurvivorsMapsSurvivors | TwoMQTT/Core/Managers/PollingManager.cs:139-148 | Mapping results one at a time, nulls skipped, is mapping the list of non-null results. |
| Ipc.Manager.constructor | TwoMQTT/Core/Managers/IPCManager.cs:16-20 | The incoming channel as given; nothing written or handled. |
| Ipc.Manager.ReadAsync | TwoMQTT/Core/Managers/IPCManager.cs:23-29 | Every waiting item goes to the handler exactly once, oldest first. The outgoing channel is untouched. |
| Ipc.Manager.WriteAsync | TwoMQTT/Core/Managers/IPCManager.cs:32-33 | Appends to the outgoing channel only. |
| SourceManager.Manager.constructor | TwoMQTT/Managers/SourceManager.cs:43-49 | No delays taken yet. |
| SourceManager.Manager.PollAsync | TwoMQTT/Managers/SourceManager.cs:107-123 | Nulls are skipped, and each non-null result is written to the IPC once, in order. The incoming side is untouched. |
| SourceManager.Manager.PollingSourceAsync | TwoMQTT/Managers/SourceManager.cs:92-101 | One poll and one delay per round; the survivors of every round, round after round. |
| SourceManager.Manager.ReadIncomingAsync | TwoMQTT/Managers/SourceManager.cs:76-85 | Every waiting command goes to the liaison once, first in, first out. |
| SourceManager.Manager.ExecuteAsync | TwoMQTT/Managers/SourceManager.cs:43-49 | Both loops have run to completion. |
| LegacySourceManager.Manager.constructor | TwoMQTT/Core/Managers/SourceManager.cs:47-53 | Empty output and nothing sent. |
| LegacySourceManager.Manager.PollAsync | TwoMQTT/Core/Managers/SourceManager.cs:116-132 | Nulls are skipped, and each non-null result is written once, in order. |
| LegacySourceManager.Manager.PollingSourceAsync | TwoMQTT/Core/Managers/SourceManager.cs:101-110 | A poll, then a delay, per round before cancellation. |
| LegacySourceManager.Manager.ReadIncomingCommandsAsync | TwoMQTT/Core/Managers/SourceManager.cs:85-94 | Each command goes to the liaison once, first in, first out. |
| LegacySourceManager.Manager.ExecuteAsync | TwoMQTT/Core/Managers/SourceManager.cs:47-53 | Waits for both loops. |
| PollingManager.Manager.constructor | TwoMQTT/Core/Managers/PollingManager.cs:73-100 | Nothing looked up, written or handled. |
| PollingManager.Manager.PollAsync | TwoMQTT/Core/Managers/PollingManager.cs:129-149 | One lookup per question, in order. Then, in question order, each non-null answer is mapped and written, and nothing is written for a null. |
| PollingManager.Manager.PollRounds | TwoMQTT/Core/Managers/PollingManager.cs:88-97 | A poll, then a delay, per round. The questions are looked up again every round. |
| PollingManager.Manager.PolledOneMore | TwoMQTT/Core/Managers/PollingManager.cs:91-95 | One more round extends what was written and looked up. |
| PollingManager.Manager.ReadIncomingCommandAsync | TwoMQTT/Core/Managers/PollingManager.cs:110-118 | Each waiting command is handled once, first in, first out; the channel ends empty. |
| PollingManager.Manager.ExecuteAsync | TwoMQTT/Core/Managers/PollingManager.cs:73-100 | The command reader and the poll task both run to completion. |
| PollingManager.Repeated | TwoMQTT/Core/Managers/PollingManager.cs:91-95 | n rounds look up n times as many questions. |
| PollingManager.PollWritesOnePerAnsweredQuestion | TwoMQTT/Core/Managers/PollingManager.cs:138-147 | When every question is answered, the i-th write is the mapping of the i-th answer. |
| PollingManager.PollWritesNothingForNulls | TwoMQTT/Core/Managers/PollingManager.cs:141-144 | Null answers write nothing. |
| ExampleLiaison.FirstSlug | examples/pollingexample2mqtt/PollingExample/Liasons/MQTTLiason.cs:36-39 | The slug of the first question with the key, or "" when no question has it. |
| ExampleLiaison.MapData | examples/pollingexample2mqtt/PollingExample/Liasons/MQTTLiason.cs:33-56 | Empty when there is no slug or the slug is empty. Otherwise exactly one pair: the state topic of (slug, "Key") and the resource's key. |
| ExampleLiaison.EmptyFirstSlugHidesLaterMatches | examples/pollingexample2mqtt/PollingExample/Liasons/MQTTLiason.cs:36-46 | An empty first slug hides later matches. |
| ExampleLiaison.MapDataForAKnownKey | examples/pollingexample2mqtt/PollingExample/Liasons/MQTTLiason.cs:49-53 | A known key gives one message on "…/{slug}/key/state" whose payload is the key. |
| ExampleLiaison.EntriesFor | examples/pollingexample2mqtt/PollingExample/Liasons/MQTTLiason.cs:70-80 | One entry per mapped sensor, with no command topic. |
| ExampleLiaison.Discoveries | examples/pollingexample2mqtt/PollingExample/Liasons/MQTTLiason.cs:59-84 | The nested loops build every question's entries, question after question. |
| ExampleLiaison.EntriesOneMore | examples/pollingexample2mqtt/PollingExample/Liasons/MQTTLiason.cs:70-80 | One more entry extends the list. |
| ExampleLiaison.AllEntriesOneMore | examples/pollingexample2mqtt/PollingExample/Liasons/MQTTLiason.cs:68-81 | One more question extends the entries. |
| ExampleLiaison.OneEntryPerQuestion | examples/pollingexample2mqtt/PollingExample/Liasons/MQTTLiason.cs:63-81 | One entry per question, in order. Each has the question's slug, sensor "Key", type "sensor", no command topic, and the slug's state topic. |
| ExampleLiaison.LastEntryBelongs | examples/pollingexample2mqtt/PollingExample/Liasons/MQTTLiason.cs:73-79 | The single entry for a question belongs to it. |
| Console.VersionLine | TwoMQTT/Core/AppVersion.cs:17-22 | "v" followed by the version, or "v0.0.0.0" without one. |
| Console.PrintVersion | TwoMQTT/ConsoleProgram.cs:54-65 | Stops if and only if the second argument is "version" (null or short arguments give false). It prints the version line exactly when it stops. |
| Console.FirstArgumentIgnored | TwoMQTT/Core/AppVersion.cs:11 | The first argument never matters. |
| Console.VersionArgumentExamples | TwoMQTTTest/ConsoleProgramTest.cs:17-38 | [] and null do not ask for the version; ["test","version"] does; ["version"] does not. |
| Console.DefaultKey | TwoMQTT/ConsoleProgram.cs:77 | With the rewrite, the key holds no ':'; without it, the key is unchanged. |
| Console.ApplyDefault | TwoMQTT/ConsoleProgram.cs:78-83 | A set, non-empty variable is skipped. Otherwise SetEnvironmentVariable throws exactly when the name is refused (empty, holding '=', or starting with NUL), and the environment is then unchanged. When nothing is thrown and the variable was unset or empty, it becomes the default's value, or is removed when that value is empty or starts with NUL, which .NET treats as null. Only the default's own variable can change. |
| Console.ThrowStopsTheRest | TwoMQTT/ConsoleProgram.cs:75-84 | Once a default has thrown, the defaults after it are never applied. |
| Console.AcceptedNamesNeverThrow | TwoMQTT/ConsoleProgram.cs:83 | Defaults whose names are all accepted never throw. |
| Console.NonEmptyVariablesKept | TwoMQTT/ConsoleProgram.cs:78-81 | A set, non-empty variable is never changed. |
| Console.OtherVariablesKept | TwoMQTT/ConsoleProgram.cs:75-84 | A variable no default names is never changed. |
| Console.NulValueRemovesExample | TwoMQTT/ConsoleProgram.cs:83 | Setting "A" to "\0x" leaves it unset, and removes it when it was set to "". |
| Console.FirstDefaultFillsTheGap | TwoMQTT/ConsoleProgram.cs:83 | Unless a default throws, a missing or empty variable gets the first default that does not clear it (neither empty nor starting with NUL) written under its name. |
| Console.Environment.constructor | TwoMQTT/ConsoleProgram.cs:71-85 | The environment as given. |
| Console.Environment.ConfigureEnvironmentDefaults | TwoMQTT/ConsoleProgram.cs:71-85 | Every default is applied in order, with ':' rewritten, up to the first that throws; a null dictionary changes nothing and does not throw. |
| Console.Environment.ConfigureLegacyDefaults | TwoMQTT/Core/ConsoleProgram.cs:100-106 | Every default is applied in order, keys verbatim, up to the first that throws. |
| Console.Environment.ApplyEach | TwoMQTT/ConsoleProgram.cs:75-84 | The loop the two generations share: the environment and the exception are those of the fold over the defaults. |
| Console.Environment.ExecuteAsync | TwoMQTT/ConsoleProgram.cs:33-47 | Asked for the version, it prints it and changes nothing. Otherwise it applies the defaults and runs, unless a default threw. |
| Console.Environment.ExecuteLegacy | TwoMQTT/Core/ConsoleProgram.cs:38-46 | The same for the older generation, whose defaults are applied in Configure. |
| Console.ExecuteAsyncTestVector | TwoMQTTTest/ConsoleProgramTest.cs:17-38 | No arguments set the unset variable to its default; "test version" stops first. |
| Console.EmptyKeyStopsTheDefaults | TwoMQTT/ConsoleProgram.cs:75-84 | An empty key throws, and the default after it is not applied. |
| Console.RewrittenKeysCanCollide | TwoMQTT/ConsoleProgram.cs:77-83 | "a:b" and "a__b" name the same variable, and the first of them applied wins. |

## Left out

- Broker I/O: connecting, subscribing, publishing, QoS and broker errors. The broker is an append-only log, and publish errors are not modelled. Both Go publishers store the payload whatever the broker answers, which is what the model does.
- Concurrency is sequentialised. This covers `Task.Run`, `Task.WhenAll`, the managed client's callbacks and Go goroutines. The parallel publishes of one item are modelled in list order, and the non-atomic check-then-store of the caches is not examined.
- Cancellation: a loop takes the list of rounds that start before cancellation is observed; cancellation in the middle of a round is not modelled.
- The throttler and Go's backoff with jitter are not modelled: a delay is a counter, and the Go retry loop stops when its list of broker answers runs out.
- Lower-casing is ASCII only. .NET `ToLower` and Go `strings.ToLower` are Unicode- and culture-aware.
- `Text.Split` is Go's `strings.Split` for a non-empty separator only. The parser's separators are never empty once defaults are applied.
- JSON serialisation of discovery records is an opaque function parameter. Only the record fields that the builders set are modelled.
- Logging, dependency injection, hosting, the HTTP and data-access layers, and `LogSettings` are not part of this model.
- The Go observer and publisher files, and the reflection helpers `MQTTOverride`/`MQTTDiscoveryOverride`, are not part of this model.
- Subscribe in the Go clients and `SubscribeAsync` in C# are modelled only as the list of topics subscribed to.
- The legacy C# manager's `ExecuteAsync`, `MessageReceivedCallback`, `HandleIncomingMessageAsync` and `ReadIncomingDataAsync` are abstract or host plumbing around the gate; only the gate and its hooks are modelled there.
- The assembly's version and name are parameters (`Option<string>`) instead of reflection.
- `Questions` being read from the shared options at construction is not modelled: the questions are a parameter.
- GoMqtt.Client.PublishDiscovery: `publishDiscovery` does not consult the Discovery option, and the model follows the code.
- ManagerOptions.Options: the options record of TwoMQTT/Models/MQTTManagerOptions.cs declares no Username or Password, but TwoMQTT/Managers/MQTTManager.cs:166 reads both; the model carries them as fields.
- GoMqtt.Client.Run: models at most as many attempts as the list of answers it is given, where the source retries forever.
- MqttManager.Manager.Setup: subscribing and announcing discovery run concurrently in the source; the model runs them in that order.
- Console.ApplyDefault: refuses the names .NET refuses on every platform (empty, holding '=', starting with NUL); limits a platform puts on name or value length are not modelled.
- Availability: the code has no special handling of an inbound "offline" on the availability topic, and neither does the model.

## Findings

| source | as written | input that shows it | evidently intended | confidence | as-written member | corrected member |
|---|---|---|---|---|---|---|
| mqttProxy.go:137-154 | The connect loop breaks after its first attempt: no `continue` follows the sleep after a failed Connect. | A broker that refuses the first attempt and accepts the second: [false, true]. | Retry until connected, as the retry loop of mqtt.go:152-170 does. | not executed | GoProxy.Proxy.Run (with GoProxy.ProxyRunGivesUpAfterOneRefusal) | GoProxy.Proxy.RunRetrying |
