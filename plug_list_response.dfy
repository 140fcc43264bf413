/** The envelope of the catalog's plugin list and its parse (src/Moodle/PlugListResponse.php). */
module PlugListResponse {
  import opened Exceptions
  import opened PhpRuntime
  import MoodlePluginVersion
  import opened MoodlePlugin

  /** The top-level object `json_decode` gives for the plugin list. */
  datatype RawPlugList = RawPlugList(timestamp: Scalar, plugins: seq<RawPlugin>)

  /** The immutable `PlugListResponse`: `getTimestamp()` and `getPlugins()` are its fields. */
  datatype PlugList = PlugList(timestamp: Instant, plugins: seq<Plugin>)

  /**
   * `PlugListResponse::jsonDeserialize`: the snapshot time, then every plugin through
   * `MoodlePlugin::jsonDeserialize`. The timestamp error's message interpolates the
   * absent `$source->timecreated`, which reads as "".
   */
  function JsonDeserialize(source: RawPlugList, parseDateTime: DateTimeParser): (r: Result<PlugList>)
    // An unreadable timestamp fails before any plugin is parsed.
    ensures parseDateTime("@" + StrValOf(source.timestamp)).None? ==> r == Err(MoodlePluginVersion.TimeError(""))
    ensures r.Ok? <==>
              && parseDateTime("@" + StrValOf(source.timestamp)).Some?
              && forall i :: 0 <= i < |source.plugins| ==> MoodlePlugin.JsonDeserialize(source.plugins[i], parseDateTime).Ok?
    // The plugins keep their number and order; getTimestamp() is the parsed time.
    ensures r.Ok? ==>
              && Some(r.value.timestamp) == parseDateTime("@" + StrValOf(source.timestamp))
              && |r.value.plugins| == |source.plugins|
              && forall i :: 0 <= i < |source.plugins| ==>
                   MoodlePlugin.JsonDeserialize(source.plugins[i], parseDateTime) == Ok(r.value.plugins[i])
    // A failing plugin fails the whole response with the first failing plugin's exception.
    ensures r.Err? && parseDateTime("@" + StrValOf(source.timestamp)).Some? ==>
              exists k :: 0 <= k < |source.plugins|
                && MoodlePlugin.JsonDeserialize(source.plugins[k], parseDateTime) == Err(r.error)
                && forall j :: 0 <= j < k ==> MoodlePlugin.JsonDeserialize(source.plugins[j], parseDateTime).Ok?
  {
    var timestamp := parseDateTime("@" + StrValOf(source.timestamp));
    if timestamp.None? then Err(MoodlePluginVersion.TimeError(""))
    else
      var plugins :- MapAll((p: RawPlugin) => MoodlePlugin.JsonDeserialize(p, parseDateTime), source.plugins);
      Ok(PlugList(timestamp.value, plugins))
  }

  function ToJson(list: PlugList): RawPlugList
  {
    RawPlugList(JInt(list.timestamp),
                seq(|list.plugins|, i requires 0 <= i < |list.plugins| => MoodlePlugin.ToJson(list.plugins[i])))
  }

  /** Parsing what the catalog writes gives back the snapshot it describes, every plugin and version included. */
  lemma RoundTrip(list: PlugList, parseDateTime: DateTimeParser)
    requires MoodlePluginVersion.ReadsEpoch(parseDateTime, list.timestamp)
    requires forall i :: 0 <= i < |list.plugins| ==> ReadsAllEpochs(parseDateTime, list.plugins[i])
    ensures JsonDeserialize(ToJson(list), parseDateTime) == Ok(list)
  {
    var raw := ToJson(list);
    forall i | 0 <= i < |raw.plugins|
      ensures MoodlePlugin.JsonDeserialize(raw.plugins[i], parseDateTime) == Ok(list.plugins[i])
    {
      MoodlePlugin.RoundTrip(list.plugins[i], parseDateTime);
    }
    var r := JsonDeserialize(raw, parseDateTime);
    assert r.Ok?;
    assert r.value.plugins == list.plugins;
  }
}
