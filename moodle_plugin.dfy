/** A plugin of the catalog and its parse (src/Moodle/MoodlePlugin.php). */
module MoodlePlugin {
  import opened Exceptions
  import opened PhpRuntime
  import opened MoodlePluginVersion

  /** A plugin object as `json_decode` gives it; `versions` is its array of version objects. */
  datatype RawPlugin = RawPlugin(
    id: Scalar,
    name: Scalar,
    component: Scalar,
    source: Scalar,
    doc: Scalar,
    bugs: Scalar,
    discussion: Scalar,
    timelastreleased: Scalar,
    versions: seq<RawVersion>)

  /** The immutable `MoodlePlugin`; its getters are the field selectors. */
  datatype Plugin = Plugin(
    id: int,
    name: string,
    component: string,
    sourceUrl: string,
    documentationUrl: string,
    bugsUrl: string,
    discussionUrl: string,
    timeLastReleased: Instant,
    versions: seq<PluginVersion>)

  /**
   * The LogicException for an unreadable release time. Its message interpolates
   * `$source->timecreated`, a property plugin objects do not have, which reads as "".
   */
  const ReleaseTimeError := TimeError("")

  /**
   * `MoodlePlugin::jsonDeserialize`: string and int coercions of the scalar properties,
   * the release time, then every version through `MoodlePluginVersion::jsonDeserialize`.
   */
  function JsonDeserialize(source: RawPlugin, parseDateTime: DateTimeParser): (r: Result<Plugin>)
    // An unreadable release time fails before any version is parsed.
    ensures parseDateTime("@" + StrValOf(source.timelastreleased)).None? ==> r == Err(ReleaseTimeError)
    ensures r.Ok? <==>
              && parseDateTime("@" + StrValOf(source.timelastreleased)).Some?
              && forall i :: 0 <= i < |source.versions| ==> MoodlePluginVersion.JsonDeserialize(source.versions[i], parseDateTime).Ok?
    // The versions keep their number and order, each the parse of its source element.
    ensures r.Ok? ==>
              && |r.value.versions| == |source.versions|
              && forall i :: 0 <= i < |source.versions| ==>
                   MoodlePluginVersion.JsonDeserialize(source.versions[i], parseDateTime) == Ok(r.value.versions[i])
    // A failing version fails the whole plugin with the first failing version's exception.
    ensures r.Err? && parseDateTime("@" + StrValOf(source.timelastreleased)).Some? ==>
              exists k :: 0 <= k < |source.versions|
                && MoodlePluginVersion.JsonDeserialize(source.versions[k], parseDateTime) == Err(r.error)
                && forall j :: 0 <= j < k ==> MoodlePluginVersion.JsonDeserialize(source.versions[j], parseDateTime).Ok?
    ensures r.Ok? ==>
              && r.value.id == IntValOf(source.id)
              && r.value.name == StrValOf(source.name)
              && r.value.component == StrValOf(source.component)
              && r.value.sourceUrl == StrValOf(source.source)
              && r.value.documentationUrl == StrValOf(source.doc)
              && r.value.bugsUrl == StrValOf(source.bugs)
              && r.value.discussionUrl == StrValOf(source.discussion)
              && Some(r.value.timeLastReleased) == parseDateTime("@" + StrValOf(source.timelastreleased))
  {
    var released := parseDateTime("@" + StrValOf(source.timelastreleased));
    if released.None? then Err(ReleaseTimeError)
    else
      var versions :- MapAll((v: RawVersion) => MoodlePluginVersion.JsonDeserialize(v, parseDateTime), source.versions);
      Ok(Plugin(IntValOf(source.id), StrValOf(source.name), StrValOf(source.component), StrValOf(source.source),
                StrValOf(source.doc), StrValOf(source.bugs), StrValOf(source.discussion), released.value, versions))
  }

  // ---------------------------------------------------------------------------
  // The catalog's own encoding of a plugin, and the round trip through the parser

  function ToJson(p: Plugin): RawPlugin
  {
    RawPlugin(JInt(p.id), JStr(p.name), JStr(p.component), JStr(p.sourceUrl), JStr(p.documentationUrl),
              JStr(p.bugsUrl), JStr(p.discussionUrl), JInt(p.timeLastReleased),
              seq(|p.versions|, i requires 0 <= i < |p.versions| => MoodlePluginVersion.ToJson(p.versions[i])))
  }

  /** Every instant recorded in the plugin is read back by the date parser. */
  predicate ReadsAllEpochs(parseDateTime: DateTimeParser, p: Plugin)
  {
    && ReadsEpoch(parseDateTime, p.timeLastReleased)
    && forall i :: 0 <= i < |p.versions| ==> ReadsEpoch(parseDateTime, p.versions[i].timeCreated)
  }

  /** Parsing what the catalog writes gives back the plugin it describes, versions included. */
  lemma RoundTrip(p: Plugin, parseDateTime: DateTimeParser)
    requires ReadsAllEpochs(parseDateTime, p)
    ensures JsonDeserialize(ToJson(p), parseDateTime) == Ok(p)
  {
    var raw := ToJson(p);
    forall i | 0 <= i < |raw.versions|
      ensures MoodlePluginVersion.JsonDeserialize(raw.versions[i], parseDateTime) == Ok(p.versions[i])
    {
      MoodlePluginVersion.RoundTrip(p.versions[i], parseDateTime);
    }
    var r := JsonDeserialize(raw, parseDateTime);
    assert r.Ok?;
    assert r.value.versions == p.versions;
  }
}
