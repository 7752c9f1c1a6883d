/** Where the C# and the Go naming rules agree and where they part ways. */
module NamingComparison {
  import opened Text
  import Naming
  import GoNaming

  /** With a non-empty lower-case prefix and both name and sensor present, the two
      generations give the same state topic. */
  lemma StateTopicsAgree(prefix: string, name: string, sensor: string, discoveryName: string, opts: GoNaming.MqttOpts)
    requires prefix != "" && IsLower(prefix) && name != "" && sensor != ""
    requires opts.topicPrefix == prefix
    ensures Naming.Generator(prefix, discoveryName).StateTopic(name, sensor) == opts.StateTopic(name, sensor)
  {
    Naming.StringifyCases(prefix, name, sensor, '/');
    LowerOfLowerIsIdentity(prefix);
  }

  /** The two generations disagree when a part is empty or the prefix is not lower-case:
      C# drops an empty prefix or sensor, Go keeps the empty prefix, the trailing
      delimiter of an empty sensor and the case of the prefix. */
  lemma EmptyPrefixDiverges(opts: GoNaming.MqttOpts)
    requires opts.topicPrefix == ""
    ensures Naming.Generator("", "").StateTopic("n", "s") == "n/s/state"
    ensures opts.StateTopic("n", "s") == "/n/s/state"
  {
  }

  lemma EmptySensorDiverges(opts: GoNaming.MqttOpts)
    requires opts.topicPrefix == "p"
    ensures Naming.Generator("p", "").StateTopic("n", "") == "p/n/state"
    ensures opts.StateTopic("n", "") == "p/n//state"
  {
  }

  /** An upper-case prefix is lower-cased by C# and kept by Go. */
  lemma PrefixCaseDiverges(opts: GoNaming.MqttOpts)
    requires opts.topicPrefix == "Home"
    ensures Naming.Generator("Home", "").StateTopic("n", "s") == "home/n/s/state"
    ensures opts.StateTopic("n", "s") == "Home/n/s/state"
  {
    CSharpLowerCasesPrefix();
    GoKeepsPrefix(opts);
  }

  lemma CSharpLowerCasesPrefix()
    ensures Naming.Generator("Home", "").StateTopic("n", "s") == "home/n/s/state"
  {
    var lowered := Lower("Home");
    assert lowered == "home" by {
      assert lowered[0] == LowerChar('H') == 'h';
    }
    Naming.StringifyCases("Home", "n", "s", '/');
  }

  lemma GoKeepsPrefix(opts: GoNaming.MqttOpts)
    requires opts.topicPrefix == "Home"
    ensures opts.StateTopic("n", "s") == "Home/n/s/state"
  {
    assert GoNaming.TopicID("n", "s") == "n/s";
  }
}
