/** The expected strings of the C# naming unit tests, as facts about the model. */
module NamingExamples {
  import opened Naming

  /** The expected strings of the generator's boolean and availability unit tests. */
  lemma AvailabilityExamples()
    ensures Generator("", "").BooleanOnOff(true) == "ON" && Generator("", "").BooleanOnOff(false) == "OFF"
    ensures Generator("", "").AvailabilityTopic() == "/status"
    ensures Generator("test", "").AvailabilityTopic() == "test/status"
  {
  }

  /** The expected strings of the generator's Stringify unit tests, one per lemma. */
  lemma StringifySlugExample()
    ensures Stringify("", "slug", "", '/') == "slug"
  {
  }

  lemma StringifyPrefixSlugExample()
    ensures Stringify("test", "slug", "", '/') == "test/slug"
  {
  }

  lemma StringifyPrefixSlugSensorExample()
    ensures Stringify("test", "slug", "sensor", '/') == "test/slug/sensor"
  {
  }

  /** The expected strings of the generator's state topic unit tests. */
  lemma StateTopicExamples()
    ensures Generator("", "").StateTopic("slug", "") == "slug/state"
    ensures Generator("test", "").StateTopic("slug", "") == "test/slug/state"
    ensures Generator("test", "").StateTopic("slug", "sensor") == "test/slug/sensor/state"
  {
    StringifySlugExample();
    StringifyPrefixSlugExample();
    StringifyPrefixSlugSensorExample();
  }

  /** The expected strings of the generator's command topic unit tests. */
  lemma CommandTopicExamples()
    ensures Generator("", "").CommandTopic("slug", "") == "slug/command"
    ensures Generator("test", "").CommandTopic("slug", "") == "test/slug/command"
    ensures Generator("test", "").CommandTopic("slug", "sensor") == "test/slug/sensor/command"
  {
    StringifySlugExample();
    StringifyPrefixSlugExample();
    StringifyPrefixSlugSensorExample();
  }
}
