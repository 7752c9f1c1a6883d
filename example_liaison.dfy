/** The example polling bridge's MQTT liaison: turns a resource read from the source
    into the state message for its configured slug, and lists one discovery record
    per configured question. */
module ExampleLiaison {
  import opened Text
  import opened Naming
  import opened ManagerOptions

  /** A configured question: the source key and the slug it is published under. */
  datatype SlugMapping = SlugMapping(key: string, slug: string)

  /** A resource read from the source. */
  datatype Resource = Resource(key: string)

  /** The property name of the resource's only published field. */
  const KeySensor: string := "Key"
  /** The Home Assistant component type for a plain sensor. */
  const SensorType: string := "sensor"
  /** The sensors published for every question, with their component types. */
  const Mapping: seq<(string, string)> := [(KeySensor, SensorType)]

  /** The slug of the first question with the given key, or "" when no question has it. */
  function FirstSlug(questions: seq<SlugMapping>, key: string): (r: string)
    ensures (forall i :: 0 <= i < |questions| ==> questions[i].key != key) ==> r == ""
    ensures forall i :: 0 <= i < |questions| && questions[i].key == key ==>
      (forall j :: 0 <= j < i ==> questions[j].key != key) ==> r == questions[i].slug
  {
    if questions == [] then ""
    else if questions[0].key == key then questions[0].slug
    else
      assert forall i :: 1 <= i < |questions| ==> questions[i] == questions[1..][i - 1];
      FirstSlug(questions[1..], key)
  }

  /** MapData: nothing without a non-empty slug for the resource's key; otherwise the
      single state message (state topic of the slug and the "Key" sensor, the key as
      payload). */
  function MapData(generator: Generator, questions: seq<SlugMapping>, input: Resource): (r: seq<(string, string)>)
    ensures FirstSlug(questions, input.key) == "" ==> r == []
    ensures FirstSlug(questions, input.key) != "" ==>
      r == [(generator.StateTopic(FirstSlug(questions, input.key), KeySensor), input.key)]
  {
    var slug := FirstSlug(questions, input.key);
    if slug == "" then [] else [(generator.StateTopic(slug, KeySensor), input.key)]
  }

  /** Only the first question with a key counts: when its slug is empty, nothing is
      published, even if a later question with the same key has a slug. */
  lemma EmptyFirstSlugHidesLaterMatches(generator: Generator, input: Resource, later: string)
    ensures MapData(generator, [SlugMapping(input.key, ""), SlugMapping(input.key, later)], input) == []
  {
    var qs := [SlugMapping(input.key, ""), SlugMapping(input.key, later)];
    assert qs[0].key == input.key;
  }

  /** A resource with a known key yields exactly one state message, on a topic ending
      in "/state" under the configured slug and the "Key" sensor. */
  lemma MapDataForAKnownKey(generator: Generator, questions: seq<SlugMapping>, i: nat, input: Resource)
    requires i < |questions| && questions[i].key == input.key && questions[i].slug != ""
    requires forall j :: 0 <= j < i ==> questions[j].key != input.key
    ensures |MapData(generator, questions, input)| == 1
    ensures MapData(generator, questions, input)[0].0 == Stringify(generator.topicPrefix, questions[i].slug, KeySensor, '/') + "/state"
    ensures MapData(generator, questions, input)[0].1 == input.key
  {
  }

  /** The discovery entries for one question, one per mapped sensor. */
  function EntriesFor(generator: Generator, assembly: AssemblyName, q: SlugMapping, mapping: seq<(string, string)>): (r: seq<DiscoveryEntry>)
    ensures |r| == |mapping|
    ensures forall j :: 0 <= j < |mapping| ==>
      r[j] == DiscoveryEntry(q.slug, mapping[j].0, mapping[j].1, generator.BuildDiscovery(q.slug, mapping[j].0, assembly, false))
  {
    seq(|mapping|, j requires 0 <= j < |mapping| =>
      DiscoveryEntry(q.slug, mapping[j].0, mapping[j].1, generator.BuildDiscovery(q.slug, mapping[j].0, assembly, false)))
  }

  /** The discovery entries for all questions, question after question. */
  function AllEntries(generator: Generator, assembly: AssemblyName, questions: seq<SlugMapping>, mapping: seq<(string, string)>): (r: seq<DiscoveryEntry>)
    decreases |questions|
  {
    if questions == [] then []
    else AllEntries(generator, assembly, questions[..|questions| - 1], mapping) + EntriesFor(generator, assembly, questions[|questions| - 1], mapping)
  }

  /** Discoveries: for each question in order, one entry per mapped sensor, built
      without a command topic. */
  method Discoveries(generator: Generator, assembly: AssemblyName, questions: seq<SlugMapping>) returns (discoveries: seq<DiscoveryEntry>)
    ensures discoveries == AllEntries(generator, assembly, questions, Mapping)
  {
    discoveries := [];
    var i := 0;
    while i < |questions|
      invariant 0 <= i <= |questions|
      invariant discoveries == AllEntries(generator, assembly, questions[..i], Mapping)
    {
      var input := questions[i];
      ghost var before := discoveries;
      ghost var es := EntriesFor(generator, assembly, input, Mapping);
      var m := 0;
      while m < |Mapping|
        invariant 0 <= m <= |Mapping|
        invariant discoveries == before + es[..m]
      {
        var (sensor, sensorType) := Mapping[m];
        var discovery := generator.BuildDiscovery(input.slug, sensor, assembly, false);
        EntriesOneMore(before, es, m);
        discoveries := discoveries + [DiscoveryEntry(input.slug, sensor, sensorType, discovery)];
        m := m + 1;
      }
      assert es[..m] == es;
      AllEntriesOneMore(generator, assembly, questions, i);
      i := i + 1;
    }
    assert questions[..i] == questions;
  }

  lemma EntriesOneMore(before: seq<DiscoveryEntry>, es: seq<DiscoveryEntry>, m: nat)
    requires m < |es|
    ensures (before + es[..m]) + [es[m]] == before + es[..m + 1]
  {
    assert es[..m + 1] == es[..m] + [es[m]];
  }

  lemma AllEntriesOneMore(generator: Generator, assembly: AssemblyName, questions: seq<SlugMapping>, i: nat)
    requires i < |questions|
    ensures AllEntries(generator, assembly, questions[..i + 1], Mapping)
      == AllEntries(generator, assembly, questions[..i], Mapping) + EntriesFor(generator, assembly, questions[i], Mapping)
  {
    assert questions[..i + 1][..i] == questions[..i];
  }

  /** An entry of the example belongs to question q: its slug, the "Key" sensor, the
      "sensor" type, and a record with no command topic whose state topic is the slug's. */
  predicate BelongsTo(generator: Generator, e: DiscoveryEntry, q: SlugMapping) {
    e.slug == q.slug && e.sensor == KeySensor && e.sensorType == SensorType &&
    e.discovery.commandTopic == "" && e.discovery.stateTopic == generator.StateTopic(q.slug, KeySensor)
  }

  /** With the example's single mapping, entry i belongs to question i. */
  lemma {:induction false} OneEntryPerQuestion(generator: Generator, assembly: AssemblyName, questions: seq<SlugMapping>)
    ensures |AllEntries(generator, assembly, questions, Mapping)| == |questions|
    ensures forall i :: 0 <= i < |questions| ==> BelongsTo(generator, AllEntries(generator, assembly, questions, Mapping)[i], questions[i])
    decreases |questions|
  {
    if questions != [] {
      var n := |questions| - 1;
      var p := questions[..n];
      OneEntryPerQuestion(generator, assembly, p);
      var before := AllEntries(generator, assembly, p, Mapping);
      var last := EntriesFor(generator, assembly, questions[n], Mapping);
      var all := AllEntries(generator, assembly, questions, Mapping);
      assert all == before + last;
      forall i | 0 <= i < |questions| ensures BelongsTo(generator, all[i], questions[i]) {
        if i < n {
          assert all[i] == before[i] && questions[i] == p[i];
        } else {
          LastEntryBelongs(generator, assembly, questions[n]);
        }
      }
    }
  }

  /** The single entry the example builds for one question belongs to it. */
  lemma LastEntryBelongs(generator: Generator, assembly: AssemblyName, q: SlugMapping)
    ensures |EntriesFor(generator, assembly, q, Mapping)| == 1
    ensures BelongsTo(generator, EntriesFor(generator, assembly, q, Mapping)[0], q)
  {
  }
}
