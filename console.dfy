/** The console program's start-up rules, in both generations: the `version`
    argument check and the environment defaults applied before the host starts.

    The process environment is a map from variable name to value; setting a
    variable to the empty string, or to a value starting with NUL, removes it, as
    the .NET runtime does. */
module Console {
  import opened Text

  /** The argument that asks for the version. */
  const VersionArg: string := "version"
  /** The version printed when the assembly has none. */
  const UnknownVersion: string := "0.0.0.0"

  /** The argument check: true iff there is a second argument and it is "version";
      a missing argument list, or one that is too short, gives false. */
  predicate AsksForVersion(args: Option<seq<string>>) {
    args.Some? && |args.value| > 1 && args.value[1] == VersionArg
  }

  /** The line PrintVersion prints: "v" and the assembly version, or the fallback. */
  function VersionLine(assemblyVersion: Option<string>): (r: string)
    ensures |r| >= 1 && r[..1] == "v"
    ensures assemblyVersion.None? ==> r == "v0.0.0.0"
    ensures assemblyVersion.Some? ==> r[1..] == assemblyVersion.value
  {
    "v" + assemblyVersion.GetOr(UnknownVersion)
  }

  /** PrintVersion: whether to stop, and what was printed (nothing unless asked). */
  function PrintVersion(args: Option<seq<string>>, assemblyVersion: Option<string>): (r: (bool, seq<string>))
    ensures r.0 <==> AsksForVersion(args)
    ensures r.0 ==> r.1 == [VersionLine(assemblyVersion)]
    ensures !r.0 ==> r.1 == []
  {
    if !AsksForVersion(args) then (false, []) else (true, [VersionLine(assemblyVersion)])
  }

  /** The first argument is never looked at. */
  lemma FirstArgumentIgnored(a: string, b: string, rest: seq<string>)
    ensures AsksForVersion(Some([a] + rest)) == AsksForVersion(Some([b] + rest))
  {
  }

  /** The unit test's argument lists: none, and "test version". */
  lemma VersionArgumentExamples()
    ensures !AsksForVersion(Some([])) && !AsksForVersion(None)
    ensures AsksForVersion(Some(["test", "version"]))
    ensures !AsksForVersion(Some(["version"]))
  {
  }

  /** The variable name a default is written under: with `rewrite`, every ':' becomes "__". */
  function DefaultKey(key: string, rewrite: bool): (r: string)
    ensures rewrite ==> ':' !in r
    ensures !rewrite || ':' !in key ==> r == key
  {
    if rewrite then ReplaceColons(key) else key
  }

  /** The names SetEnvironmentVariable refuses with an ArgumentException: the empty
      name, a name holding '=', and one starting with a NUL character. */
  predicate RefusedName(key: string) {
    key == "" || '=' in key || key[0] == '\0'
  }

  /** The values SetEnvironmentVariable treats as null, so that the variable is
      removed: the empty value and one starting with a NUL character. */
  predicate ClearsVariable(value: string) {
    value == "" || value[0] == '\0'
  }

  /** The environment after some defaults, and whether one of them threw. */
  datatype Outcome = Outcome(env: map<string, string>, threw: bool)

  /** One default: skipped when the variable is set and non-empty; otherwise written
      (and so removed when the default clears the variable), unless the name is
      refused, which throws and leaves the environment as it was. */
  function ApplyDefault(env: map<string, string>, d: (string, string), rewrite: bool): (r: Outcome)
    ensures var key := DefaultKey(d.0, rewrite);
      r.threw <==> !(key in env && env[key] != "") && RefusedName(key)
    ensures r.threw ==> r.env == env
    ensures var key := DefaultKey(d.0, rewrite);
      !r.threw && !(key in env && env[key] != "") ==>
        (if ClearsVariable(d.1) then key !in r.env else key in r.env && r.env[key] == d.1)
    ensures forall k :: k != DefaultKey(d.0, rewrite) ==> (k in r.env <==> k in env) && (k in r.env ==> r.env[k] == env[k])
  {
    var key := DefaultKey(d.0, rewrite);
    if key in env && env[key] != "" then Outcome(env, false)
    else if RefusedName(key) then Outcome(env, true)
    else if ClearsVariable(d.1) then Outcome(env - {key}, false)
    else Outcome(env[key := d.1], false)
  }

  /** A default starting with NUL leaves its variable unset, and removes one that was
      set to the empty string. */
  lemma NulValueRemovesExample()
    ensures ApplyDefault(map[], ("A", "\0x"), false) == Outcome(map[], false)
    ensures ApplyDefault(map["A" := ""], ("A", "\0x"), false) == Outcome(map[], false)
  {
  }

  /** Every default in order, stopping at the first that throws. */
  function ApplyDefaults(env: map<string, string>, defaults: seq<(string, string)>, rewrite: bool): Outcome
    decreases |defaults|
  {
    if defaults == [] then Outcome(env, false)
    else
      var before := ApplyDefaults(env, defaults[..|defaults| - 1], rewrite);
      if before.threw then before else ApplyDefault(before.env, defaults[|defaults| - 1], rewrite)
  }

  /** Once a default has thrown, the defaults after it are never applied. */
  lemma {:induction false} ThrowStopsTheRest(env: map<string, string>, defaults: seq<(string, string)>, rewrite: bool, i: nat)
    requires i <= |defaults| && ApplyDefaults(env, defaults[..i], rewrite).threw
    ensures ApplyDefaults(env, defaults, rewrite) == ApplyDefaults(env, defaults[..i], rewrite)
    decreases |defaults|
  {
    if i < |defaults| {
      var n := |defaults| - 1;
      assert defaults[..n][..i] == defaults[..i];
      ThrowStopsTheRest(env, defaults[..n], rewrite, i);
    } else {
      assert defaults[..i] == defaults;
    }
  }

  /** Defaults whose names are all accepted never throw. */
  lemma {:induction false} AcceptedNamesNeverThrow(env: map<string, string>, defaults: seq<(string, string)>, rewrite: bool)
    requires forall i :: 0 <= i < |defaults| ==> !RefusedName(DefaultKey(defaults[i].0, rewrite))
    ensures !ApplyDefaults(env, defaults, rewrite).threw
    decreases |defaults|
  {
    if defaults != [] {
      AcceptedNamesNeverThrow(env, defaults[..|defaults| - 1], rewrite);
    }
  }

  /** A variable that is set and non-empty is never changed. */
  lemma {:induction false} NonEmptyVariablesKept(env: map<string, string>, defaults: seq<(string, string)>, rewrite: bool, k: string)
    requires k in env && env[k] != ""
    ensures k in ApplyDefaults(env, defaults, rewrite).env && ApplyDefaults(env, defaults, rewrite).env[k] == env[k]
    decreases |defaults|
  {
    if defaults != [] {
      NonEmptyVariablesKept(env, defaults[..|defaults| - 1], rewrite, k);
    }
  }

  /** A variable no default names is never changed. */
  lemma {:induction false} OtherVariablesKept(env: map<string, string>, defaults: seq<(string, string)>, rewrite: bool, k: string)
    requires forall i :: 0 <= i < |defaults| ==> DefaultKey(defaults[i].0, rewrite) != k
    ensures k in ApplyDefaults(env, defaults, rewrite).env <==> k in env
    ensures k in env ==> ApplyDefaults(env, defaults, rewrite).env[k] == env[k]
    decreases |defaults|
  {
    if defaults != [] {
      OtherVariablesKept(env, defaults[..|defaults| - 1], rewrite, k);
    }
  }

  /** Unless a default throws, a missing or empty variable gets the first default
      that does not clear it written under its name, and keeps it: later defaults see it set. */
  lemma {:induction false} FirstDefaultFillsTheGap(env: map<string, string>, defaults: seq<(string, string)>, rewrite: bool, i: nat)
    requires i < |defaults| && !ClearsVariable(defaults[i].1)
    requires DefaultKey(defaults[i].0, rewrite) !in env || env[DefaultKey(defaults[i].0, rewrite)] == ""
    requires forall j :: 0 <= j < i ==> DefaultKey(defaults[j].0, rewrite) != DefaultKey(defaults[i].0, rewrite)
    ensures !ApplyDefaults(env, defaults, rewrite).threw ==>
      DefaultKey(defaults[i].0, rewrite) in ApplyDefaults(env, defaults, rewrite).env &&
      ApplyDefaults(env, defaults, rewrite).env[DefaultKey(defaults[i].0, rewrite)] == defaults[i].1
    decreases |defaults|
  {
    var n := |defaults| - 1;
    var key := DefaultKey(defaults[i].0, rewrite);
    if i < n {
      FirstDefaultFillsTheGap(env, defaults[..n], rewrite, i);
    } else {
      var p := defaults[..n];
      OtherVariablesKept(env, p, rewrite, key);
    }
  }

  /** The process environment. */
  class Environment {
    var vars: map<string, string>

    constructor(vars: map<string, string>)
      ensures this.vars == vars
    {
      this.vars := vars;
    }

    /** ConfigureEnvironmentDefaults: a missing dictionary changes nothing; otherwise
        each default is written under its key with ':' rewritten to "__", unless the
        variable already holds a non-empty value; a refused name throws. */
    method ConfigureEnvironmentDefaults(envs: Option<seq<(string, string)>>) returns (threw: bool)
      modifies this
      ensures vars == ApplyDefaults(old(vars), envs.GetOr([]), true).env
      ensures threw == ApplyDefaults(old(vars), envs.GetOr([]), true).threw
      ensures envs.None? ==> vars == old(vars) && !threw
    {
      var defaults := envs.GetOr([]);
      threw := ApplyEach(defaults, true);
    }

    /** The legacy default loop in Configure: keys are used as given. */
    method ConfigureLegacyDefaults(defaults: seq<(string, string)>) returns (threw: bool)
      modifies this
      ensures vars == ApplyDefaults(old(vars), defaults, false).env
      ensures threw == ApplyDefaults(old(vars), defaults, false).threw
    {
      threw := ApplyEach(defaults, false);
    }

    /** The loop both generations share, with or without the key rewrite. It stops
        at the first default whose name SetEnvironmentVariable refuses. */
    method ApplyEach(defaults: seq<(string, string)>, rewrite: bool) returns (threw: bool)
      modifies this
      ensures vars == ApplyDefaults(old(vars), defaults, rewrite).env
      ensures threw == ApplyDefaults(old(vars), defaults, rewrite).threw
    {
      var i := 0;
      while i < |defaults|
        invariant 0 <= i <= |defaults|
        invariant vars == ApplyDefaults(old(vars), defaults[..i], rewrite).env
        invariant !ApplyDefaults(old(vars), defaults[..i], rewrite).threw
      {
        assert defaults[..i + 1][..i] == defaults[..i];
        assert ApplyDefaults(old(vars), defaults[..i + 1], rewrite) == ApplyDefault(vars, defaults[i], rewrite);
        var key := DefaultKey(defaults[i].0, rewrite);
        if key in vars && vars[key] != "" {
          i := i + 1;
          continue;
        }
        if RefusedName(key) {
          // SetEnvironmentVariable throws; the remaining defaults are not applied.
          ThrowStopsTheRest(old(vars), defaults, rewrite, i + 1);
          return true;
        }
        if ClearsVariable(defaults[i].1) {
          vars := vars - {key};
        } else {
          vars := vars[key := defaults[i].1];
        }
        i := i + 1;
      }
      assert defaults[..i] == defaults;
      threw := false;
    }

    /** ExecuteAsync: when the version is asked for, it is printed and nothing else
        happens; otherwise the defaults are applied and the host runs, unless a
        default threw, in which case the exception leaves ExecuteAsync. */
    method ExecuteAsync(args: Option<seq<string>>, envs: Option<seq<(string, string)>>, assemblyVersion: Option<string>)
      returns (output: seq<string>, ran: bool, threw: bool)
      modifies this
      ensures AsksForVersion(args) ==> vars == old(vars) && !ran && !threw && output == [VersionLine(assemblyVersion)]
      ensures !AsksForVersion(args) ==>
        var outcome := ApplyDefaults(old(vars), envs.GetOr([]), true);
        vars == outcome.env && threw == outcome.threw && ran == !threw && output == []
    {
      var (stop, printed) := PrintVersion(args, assemblyVersion);
      output := printed;
      if stop {
        return output, false, false;
      }
      threw := ConfigureEnvironmentDefaults(envs);
      ran := !threw;
    }

    /** The legacy ExecuteAsync: Configure (with its defaults) runs only when the
        version is not asked for. */
    method ExecuteLegacy(args: Option<seq<string>>, defaults: seq<(string, string)>, assemblyVersion: Option<string>)
      returns (output: seq<string>, ran: bool, threw: bool)
      modifies this
      ensures AsksForVersion(args) ==> vars == old(vars) && !ran && !threw && output == [VersionLine(assemblyVersion)]
      ensures !AsksForVersion(args) ==>
        var outcome := ApplyDefaults(old(vars), defaults, false);
        vars == outcome.env && threw == outcome.threw && ran == !threw && output == []
    {
      var (stop, printed) := PrintVersion(args, assemblyVersion);
      output := printed;
      if stop {
        return output, false, false;
      }
      threw := ConfigureLegacyDefaults(defaults);
      ran := !threw;
    }
  }

  /** The unit test: with the variable unset, no arguments set it to its default,
      and "test version" leaves it unset. */
  lemma ExecuteAsyncTestVector(name: string)
    requires name != "" && ':' !in name && '=' !in name && name[0] != '\0'
    ensures !AsksForVersion(Some([]))
    ensures ApplyDefaults(map[], [(name, name)], true) == Outcome(map[name := name], false)
    ensures AsksForVersion(Some(["test", "version"]))
  {
    assert [(name, name)][..0] == [];
  }

  /** Keys with ':' collide with the rewritten form: the first of "a:b" and "a__b"
      to be applied wins. */
  lemma RewrittenKeysCanCollide()
    ensures ApplyDefaults(map[], [("a:b", "1"), ("a__b", "2")], true) == Outcome(map["a__b" := "1"], false)
  {
    var ds := [("a:b", "1"), ("a__b", "2")];
    assert ds[..1] == [("a:b", "1")];
    assert ds[..1][..0] == [];
    assert ReplaceColons("a:b") == "a__b";
    assert ReplaceColons("a__b") == "a__b";
  }

  /** An empty key throws, and the default after it is not applied. */
  lemma EmptyKeyStopsTheDefaults()
    ensures ApplyDefaults(map[], [("", "x"), ("a", "1")], true) == Outcome(map[], true)
  {
  }
}
