/**
 * The Composer repository of download.moodle.org plugins (src/Repository.php): the
 * cache-or-fetch decision for the plugin list, the generator that turns one plugin into
 * packages, and the build of the package array with its per-plugin exception isolation.
 */
module Repository {
  import opened Exceptions
  import opened PhpRuntime
  import opened MoodlePlugin
  import opened PlugListResponse
  import opened PackageSynthesis

  const ApiUrl := "https://download.moodle.org/api"
  const ApiVersion := "1.3"
  /** `implode('/', [API_URL, API_VERSION, 'pluglist.php'])`. */
  const PlugListUrl := ApiUrl + "/" + ApiVersion + "/" + "pluglist.php"
  const CacheKey := "pluglist.json"
  /** Cached data younger than this many seconds is used without a request. */
  const MaxCacheAge := 600
  const DefaultNamespace := "moodledotorg"
  /** `getRepoName()`. */
  const RepoName := "MoodleOrg repository (https://downloads.moodle.org)"

  /** The fully qualified name of the class whose `jsonDeserialize` receives the decoded list. */
  const PlugListResponseClass := "Vidalia\\Composer\\MoodleOrg\\Moodle\\PlugListResponse"

  /**
   * What `json_decode` gives: an object, read as the catalog envelope, or a value of
   * another type, of which only PHP's name for the type ("null", "array", "int", …) matters.
   */
  datatype Decoded = DecodedObject(list: RawPlugList) | DecodedOther(typeName: string)

  /** The TypeError of passing a decoded non-object of type `typeName` to `jsonDeserialize(object $source)`. */
  function NotAnObject(typeName: string): Error
  {
    TypeError(PlugListResponseClass + "::jsonDeserialize(): Argument #1 ($source) must be of type object, "
              + typeName + " given")
  }

  /** A message written to Composer's IO. */
  datatype LogEntry = Debug(message: string) | Warning(message: string)

  /**
   * What the outside world answers. `cacheAge` and `cachedData` are the cache's
   * `getAge` and `read` (None for `false`), `response` is `file_get_contents`,
   * `writeError` the message of an ErrorException from the cache write, if any.
   * `jsonDecode` is `json_decode` of a text (invalid JSON decodes to null).
   * `warningsThrow` says whether the host's error handler turns PHP warnings into ErrorException.
   */
  datatype Environment = Environment(
    cacheAge: Option<int>,
    cachedData: Option<string>,
    response: Option<string>,
    writeError: Option<string>,
    jsonDecode: string -> Decoded,
    parseDateTime: DateTimeParser,
    warningsThrow: bool)

  /** `PlugListResponse::jsonDeserialize(json_decode($data))->getPlugins()`. */
  function DecodePlugins(env: Environment, data: string): (r: Result<seq<Plugin>>)
    ensures env.jsonDecode(data).DecodedOther? ==> r == Err(NotAnObject(env.jsonDecode(data).typeName))
    ensures env.jsonDecode(data).DecodedObject? ==>
              match PlugListResponse.JsonDeserialize(env.jsonDecode(data).list, env.parseDateTime)
              case Ok(list) => r == Ok(list.plugins)
              case Err(e) => r == Err(e)
  {
    match env.jsonDecode(data)
    case DecodedOther(typeName) => Err(NotAnObject(typeName))
    case DecodedObject(raw) =>
      var list :- PlugListResponse.JsonDeserialize(raw, env.parseDateTime);
      Ok(list.plugins)
  }

  /** Whether the cached plugin list is used: an age, under ten minutes, and a successful read. */
  predicate CacheIsFresh(env: Environment)
  {
    env.cacheAge.Some? && env.cacheAge.value < MaxCacheAge && env.cachedData.Some?
  }

  /** Everything one `queryAllPlugins` call does: requests made, cache writes attempted, IO messages, and its result. */
  datatype QueryEffects = QueryEffects(requests: nat, writes: seq<string>, log: seq<LogEntry>, result: Result<seq<Plugin>>)

  /** The specification of `queryAllPlugins`. */
  function Query(env: Environment, readOnly: bool): (q: QueryEffects)
    // At most one request, and none exactly when the cache is fresh.
    ensures q.requests <= 1
    ensures q.requests == 0 <==> CacheIsFresh(env)
    ensures CacheIsFresh(env) ==> q == QueryEffects(0, [], [], DecodePlugins(env, env.cachedData.value))
    // A failed request is a LogicException naming the URL, with nothing logged or cached.
    ensures !CacheIsFresh(env) && env.response.None? ==>
              q == QueryEffects(1, [], [], Err(Logic("Failed to query " + PlugListUrl)))
    // A response is logged, cached unless the cache is read-only, and decoded.
    ensures !CacheIsFresh(env) && env.response.Some? ==>
              && q.result == DecodePlugins(env, env.response.value)
              && q.writes == (if readOnly then [] else [env.response.value])
              && |q.log| >= 1
              && q.log[..1] == [Debug("HTTP GET " + PlugListUrl)]
              && q.log[1..] == (if !readOnly && env.writeError.Some? then [Warning("Failed to cache " + CacheKey + ": " + env.writeError.value)] else [])
  {
    if CacheIsFresh(env) then QueryEffects(0, [], [], DecodePlugins(env, env.cachedData.value))
    else if env.response.None? then QueryEffects(1, [], [], Err(Logic("Failed to query " + PlugListUrl)))
    else
      var response := env.response.value;
      var writes := if readOnly then [] else [response];
      var warnings := if !readOnly && env.writeError.Some? then [Warning("Failed to cache " + CacheKey + ": " + env.writeError.value)] else [];
      QueryEffects(1, writes, [Debug("HTTP GET " + PlugListUrl)] + warnings, DecodePlugins(env, response))
  }

  /** A failing cache write only adds a warning: the plugins, the request and the write attempt are the same. */
  lemma CacheWriteFailureIsOnlyLogged(env: Environment, readOnly: bool, message: string)
    ensures var failing := Query(env.(writeError := Some(message)), readOnly);
            var clean := Query(env.(writeError := None), readOnly);
            && failing.result == clean.result
            && failing.requests == clean.requests
            && failing.writes == clean.writes
            && clean.log <= failing.log
            && |failing.log| <= |clean.log| + 1
  {
  }

  /** With a fresh cache the network is never consulted: any response gives the same effects. */
  lemma FreshCacheIgnoresNetwork(env: Environment, readOnly: bool, response: Option<string>)
    requires CacheIsFresh(env)
    ensures Query(env.(response := response), readOnly) == Query(env, readOnly)
  {
  }

  // ---------------------------------------------------------------------------
  // The build of the package array

  /** The packages added and the warnings written by the plugin loop of `initialize`. */
  datatype Ingested = Ingested(packages: seq<Package>, log: seq<LogEntry>)

  /** What one plugin contributes: nothing for an empty component, else its packages and, if it failed, a warning. */
  function IngestOne(namespace: string, plugin: Plugin, warningsThrow: bool): (r: Ingested)
    ensures IsEmpty(plugin.component) ==> r == Ingested([], [])
    ensures !IsEmpty(plugin.component) ==>
              var c := Convert(namespace, plugin, warningsThrow);
              && r.packages == c.yielded
              && |r.log| <= 1
              && (r.log == [] <==> c.failure.None?)
              // The warning carries the exception's message.
              && (c.failure.Some? ==> r.log == [Warning(c.failure.value.message)])
  {
    if IsEmpty(plugin.component) then Ingested([], [])
    else
      var c := Convert(namespace, plugin, warningsThrow);
      Ingested(c.yielded, if c.failure.Some? then [Warning(c.failure.value.message)] else [])
  }

  /** The contributions one after another: packages in order, warnings in order. */
  function Join(parts: seq<Ingested>): Ingested
  {
    if parts == [] then Ingested([], [])
    else
      var prev := Join(parts[..|parts| - 1]);
      var last := parts[|parts| - 1];
      Ingested(prev.packages + last.packages, prev.log + last.log)
  }

  lemma {:induction false} JoinConcat(p: seq<Ingested>, q: seq<Ingested>)
    ensures Join(p + q) == Ingested(Join(p).packages + Join(q).packages, Join(p).log + Join(q).log)
  {
    if q == [] {
      assert p + q == p;
    } else {
      var pq, q' := p + q, q[..|q| - 1];
      assert pq[..|pq| - 1] == p + q';
      assert pq[|pq| - 1] == q[|q| - 1];
      JoinConcat(p, q');
      var last := q[|q| - 1];
      assert Join(pq).packages == (Join(p).packages + Join(q').packages) + last.packages;
      assert Join(pq).log == (Join(p).log + Join(q').log) + last.log;
    }
  }

  /** Each plugin's contribution, in the plugins' order. */
  function Contributions(namespace: string, plugins: seq<Plugin>, warningsThrow: bool): (cs: seq<Ingested>)
    ensures |cs| == |plugins|
    ensures forall i :: 0 <= i < |plugins| ==> cs[i] == IngestOne(namespace, plugins[i], warningsThrow)
  {
    seq(|plugins|, i requires 0 <= i < |plugins| => IngestOne(namespace, plugins[i], warningsThrow))
  }

  lemma ContributionsConcat(namespace: string, a: seq<Plugin>, b: seq<Plugin>, warningsThrow: bool)
    ensures Contributions(namespace, a + b, warningsThrow) == Contributions(namespace, a, warningsThrow) + Contributions(namespace, b, warningsThrow)
  {
    var whole, left, right := Contributions(namespace, a + b, warningsThrow), Contributions(namespace, a, warningsThrow), Contributions(namespace, b, warningsThrow);
    forall i | 0 <= i < |a + b|
      ensures whole[i] == (left + right)[i]
    {
      if i < |a| {
        assert (a + b)[i] == a[i];
      } else {
        assert (a + b)[i] == b[i - |a|];
      }
    }
  }

  /** The plugin loop of `initialize` over `plugins`: each plugin's contribution, one after another. */
  function Ingest(namespace: string, plugins: seq<Plugin>, warningsThrow: bool): Ingested
  {
    Join(Contributions(namespace, plugins, warningsThrow))
  }

  /**
   * Exceptions are isolated per plugin: the build of a concatenation is the build
   * of each part, one after the other, whatever fails in either.
   */
  lemma IngestConcat(namespace: string, a: seq<Plugin>, b: seq<Plugin>, warningsThrow: bool)
    ensures var whole, left, right := Ingest(namespace, a + b, warningsThrow), Ingest(namespace, a, warningsThrow), Ingest(namespace, b, warningsThrow);
            && whole.packages == left.packages + right.packages
            && whole.log == left.log + right.log
  {
    ContributionsConcat(namespace, a, b, warningsThrow);
    JoinConcat(Contributions(namespace, a, warningsThrow), Contributions(namespace, b, warningsThrow));
  }

  /** One more plugin adds its contribution after everything before it. */
  lemma IngestStep(namespace: string, plugins: seq<Plugin>, i: int, warningsThrow: bool)
    requires 0 <= i < |plugins|
    ensures var next, prev, one := Ingest(namespace, plugins[..i + 1], warningsThrow), Ingest(namespace, plugins[..i], warningsThrow), IngestOne(namespace, plugins[i], warningsThrow);
            next == Ingested(prev.packages + one.packages, prev.log + one.log)
  {
    var cs := Contributions(namespace, plugins[..i + 1], warningsThrow);
    assert cs[..i] == Contributions(namespace, plugins[..i], warningsThrow);
  }

  /** The build of a single plugin is that plugin's contribution. */
  lemma IngestSingle(namespace: string, plugin: Plugin, warningsThrow: bool)
    ensures Ingest(namespace, [plugin], warningsThrow) == IngestOne(namespace, plugin, warningsThrow)
  {
    IngestStep(namespace, [plugin], 0, warningsThrow);
    assert [plugin][..1] == [plugin];
  }

  /**
   * A plugin that fails does not stop the plugins after it: what they add is
   * exactly what they would add alone.
   */
  lemma FailureIsIsolated(namespace: string, plugins: seq<Plugin>, i: int, warningsThrow: bool)
    requires 0 <= i < |plugins|
    ensures var whole := Ingest(namespace, plugins, warningsThrow);
            var before := Ingest(namespace, plugins[..i], warningsThrow);
            var one := IngestOne(namespace, plugins[i], warningsThrow);
            var after := Ingest(namespace, plugins[i + 1..], warningsThrow);
            && whole.packages == before.packages + one.packages + after.packages
            && whole.log == before.log + one.log + after.log
  {
    assert plugins == plugins[..i] + [plugins[i]] + plugins[i + 1..];
    IngestConcat(namespace, plugins[..i] + [plugins[i]], plugins[i + 1..], warningsThrow);
    IngestConcat(namespace, plugins[..i], [plugins[i]], warningsThrow);
    IngestSingle(namespace, plugins[i], warningsThrow);
  }

  /** Without a throwing error handler nothing fails, so the build writes no warning. */
  lemma {:induction false} NoWarningsWithoutHandler(namespace: string, plugins: seq<Plugin>)
    ensures Ingest(namespace, plugins, false).log == []
  {
    if plugins != [] {
      NoWarningsWithoutHandler(namespace, plugins[..|plugins| - 1]);
      IngestStep(namespace, plugins, |plugins| - 1, false);
      assert plugins[..|plugins|] == plugins;
    }
  }

  /** Each plugin writes at most one warning, so the build writes no more warnings than there are plugins. */
  lemma {:induction false} AtMostOneWarningPerPlugin(namespace: string, plugins: seq<Plugin>, warningsThrow: bool)
    ensures |Ingest(namespace, plugins, warningsThrow).log| <= |plugins|
  {
    if plugins != [] {
      AtMostOneWarningPerPlugin(namespace, plugins[..|plugins| - 1], warningsThrow);
      IngestStep(namespace, plugins, |plugins| - 1, warningsThrow);
      assert plugins[..|plugins|] == plugins;
    }
  }

  /** Every package added is named in the repository's namespace. */
  lemma {:induction false} PackagesInNamespace(namespace: string, plugins: seq<Plugin>, warningsThrow: bool)
    ensures var ps := Ingest(namespace, plugins, warningsThrow).packages;
            forall k :: 0 <= k < |ps| ==> |ps[k].name| > |namespace| && ps[k].name[..|namespace| + 1] == namespace + "/"
  {
    if plugins != [] {
      var plugin := plugins[|plugins| - 1];
      var prev := Ingest(namespace, plugins[..|plugins| - 1], warningsThrow).packages;
      var one := IngestOne(namespace, plugin, warningsThrow).packages;
      PackagesInNamespace(namespace, plugins[..|plugins| - 1], warningsThrow);
      IngestStep(namespace, plugins, |plugins| - 1, warningsThrow);
      assert plugins[..|plugins|] == plugins;
      forall k | 0 <= k < |one|
        ensures one[k].name == namespace + "/" + plugin.component
      {
        var c := Convert(namespace, plugin, warningsThrow);
        assert one == c.yielded && c.failure.None?;
        PackageShape(PackageName(namespace, plugin.component), ExplodeOnce(plugin.component), plugin.name, plugin.versions[k]);
      }
      var ps := prev + one;
      forall k | 0 <= k < |ps|
        ensures |ps[k].name| > |namespace| && ps[k].name[..|namespace| + 1] == namespace + "/"
      {
        if k >= |prev| {
          assert ps[k] == one[k - |prev|];
          assert (namespace + "/" + plugin.component)[..|namespace| + 1] == namespace + "/";
        }
      }
    }
  }

  /** The build of plugins that all have empty components adds nothing and logs nothing. */
  lemma {:induction false} EmptyComponentsAddNothing(namespace: string, plugins: seq<Plugin>, warningsThrow: bool)
    requires forall i :: 0 <= i < |plugins| ==> IsEmpty(plugins[i].component)
    ensures Ingest(namespace, plugins, warningsThrow) == Ingested([], [])
  {
    if plugins != [] {
      EmptyComponentsAddNothing(namespace, plugins[..|plugins| - 1], warningsThrow);
      IngestStep(namespace, plugins, |plugins| - 1, warningsThrow);
      assert plugins[..|plugins|] == plugins;
    }
  }

  // ---------------------------------------------------------------------------
  // The repository object

  /** The repository: its namespace and cache mode, the package array, and what it has done to the outside world. */
  class Repository {
    const packageNamespace: string
    const cacheReadOnly: bool
    var packages: seq<Package>
    var log: seq<LogEntry>
    var requests: nat
    var cacheWrites: seq<string>

    /**
     * The constructor: the cache's read-only mode from `cache-read-only`, and the
     * namespace from COMPOSER_MOODLEORG_NAMESPACE when that is set (even to "").
     */
    constructor (cacheReadOnlyConfig: bool, namespaceEnv: Option<string>)
      ensures packageNamespace == if namespaceEnv.Some? then namespaceEnv.value else DefaultNamespace
      ensures cacheReadOnly == cacheReadOnlyConfig
      ensures packages == [] && log == [] && requests == 0 && cacheWrites == []
    {
      packageNamespace := if namespaceEnv.Some? then namespaceEnv.value else DefaultNamespace;
      cacheReadOnly := cacheReadOnlyConfig;
      packages := [];
      log := [];
      requests := 0;
      cacheWrites := [];
    }

    /** `queryAllPlugins`: the cached list when fresh, else one request, an optional cache write, and the decode. */
    method QueryAllPlugins(env: Environment) returns (r: Result<seq<Plugin>>)
      modifies this
      ensures var q := Query(env, cacheReadOnly);
              && r == q.result
              && requests == old(requests) + q.requests
              && cacheWrites == old(cacheWrites) + q.writes
              && log == old(log) + q.log
              && packages == old(packages)
    {
      if env.cacheAge.Some? && env.cacheAge.value < MaxCacheAge && env.cachedData.Some? {
        r := DecodePlugins(env, env.cachedData.value);
        return;
      }
      requests := requests + 1;
      if env.response.None? {
        r := Err(Logic("Failed to query " + PlugListUrl));
        return;
      }
      var response := env.response.value;
      log := log + [Debug("HTTP GET " + PlugListUrl)];
      if !cacheReadOnly {
        cacheWrites := cacheWrites + [response];
        if env.writeError.Some? {
          log := log + [Warning("Failed to cache " + CacheKey + ": " + env.writeError.value)];
        }
      }
      r := DecodePlugins(env, response);
    }

    /** `convertPluginToPackages` run to its end: the destructuring of the component, then one package per version. */
    method ConvertPluginToPackages(plugin: Plugin, warningsThrow: bool) returns (c: Conversion)
      ensures c == Convert(packageNamespace, plugin, warningsThrow)
    {
      var packageName := PackageName(packageNamespace, plugin.component);
      var exploded := ExplodeOnce(plugin.component);
      if exploded.pluginName.None? && warningsThrow {
        return Conversion([], Some(ErrorException(UndefinedKeyWarning)));
      }
      var yielded: seq<Package> := [];
      for i := 0 to |plugin.versions|
        invariant yielded == PackagesFor(packageName, exploded, plugin.name, plugin.versions[..i])
      {
        PackagesForStep(packageName, exploded, plugin.name, plugin.versions, i);
        yielded := yielded + [PackageFor(packageName, exploded, plugin.name, plugin.versions[i])];
      }
      assert plugin.versions[..|plugin.versions|] == plugin.versions;
      c := Conversion(yielded, None);
    }

    /**
     * `initialize`: the package array is emptied, the plugin list queried (its
     * exception escapes), then each plugin with a non-empty component is converted,
     * its packages added one by one and its exception, if any, written as a warning.
     */
    method Initialize(env: Environment) returns (outcome: Outcome)
      modifies this
      ensures var q := Query(env, cacheReadOnly);
              && requests == old(requests) + q.requests
              && cacheWrites == old(cacheWrites) + q.writes
              && (q.result.Err? ==> outcome == Fail(q.result.error) && packages == [] && log == old(log) + q.log)
              && (q.result.Ok? ==>
                    var built := Ingest(packageNamespace, q.result.value, env.warningsThrow);
                    outcome == Pass && packages == built.packages && log == old(log) + q.log + built.log)
    {
      packages := [];
      var queried := QueryAllPlugins(env);
      if queried.Err? {
        return Fail(queried.error);
      }
      IngestPlugins(queried.value, env.warningsThrow);
      outcome := Pass;
    }

    /**
     * The plugin loop of `initialize`: plugins with an empty component are skipped;
     * each other plugin is converted, its packages added one by one and its exception,
     * if any, written as a warning.
     */
    method IngestPlugins(plugins: seq<Plugin>, warningsThrow: bool)
      modifies this
      ensures var built := Ingest(packageNamespace, plugins, warningsThrow);
              && packages == old(packages) + built.packages
              && log == old(log) + built.log
      ensures requests == old(requests) && cacheWrites == old(cacheWrites)
    {
      ghost var start, startPackages := log, packages;
      for i := 0 to |plugins|
        invariant packages == startPackages + Ingest(packageNamespace, plugins[..i], warningsThrow).packages
        invariant log == start + Ingest(packageNamespace, plugins[..i], warningsThrow).log
        invariant requests == old(requests) && cacheWrites == old(cacheWrites)
      {
        IngestStep(packageNamespace, plugins, i, warningsThrow);
        var plugin := plugins[i];
        ghost var prev := Ingest(packageNamespace, plugins[..i], warningsThrow);
        ghost var one := IngestOne(packageNamespace, plugin, warningsThrow);
        AppendAssoc(startPackages, prev.packages, one.packages);
        AppendAssoc(start, prev.log, one.log);
        if !IsEmpty(plugin.component) {
          var c := ConvertPluginToPackages(plugin, warningsThrow);
          assert one == Ingested(c.yielded, if c.failure.Some? then [Warning(c.failure.value.message)] else []);
          AddPackages(c.yielded);
          if c.failure.Some? {
            log := log + [Warning(c.failure.value.message)];
          }
        }
      }
      assert plugins[..|plugins|] == plugins;
    }

    /** The `foreach` over the generator: `addPackage` for each yielded package, in order. */
    method AddPackages(yielded: seq<Package>)
      modifies this
      ensures packages == old(packages) + yielded
      ensures log == old(log) && requests == old(requests) && cacheWrites == old(cacheWrites)
    {
      for j := 0 to |yielded|
        invariant packages == old(packages) + yielded[..j]
        invariant log == old(log) && requests == old(requests) && cacheWrites == old(cacheWrites)
      {
        assert yielded[..j + 1] == yielded[..j] + [yielded[j]];
        packages := packages + [yielded[j]];
      }
      assert yielded[..|yielded|] == yielded;
    }
  }
}
