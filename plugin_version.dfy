/** One release of a plugin and its parse from the catalog (src/Moodle/MoodlePluginVersion.php). */
module MoodlePluginVersion {
  import opened Exceptions
  import opened PhpRuntime
  import opened MoodlePluginMaturity

  /** A version object as `json_decode` gives it: one scalar per property the parser reads. */
  datatype RawVersion = RawVersion(
    id: Scalar,
    version: Scalar,
    release: Scalar,
    maturity: Scalar,
    downloadurl: Scalar,
    downloadmd5: Scalar,
    vcssystem: Scalar,
    vcssystemother: Scalar,
    vcsrepositoryurl: Scalar,
    vcsbranch: Scalar,
    vcstag: Scalar,
    timecreated: Scalar)

  /** The immutable `MoodlePluginVersion`; its getters are the field selectors. */
  datatype PluginVersion = PluginVersion(
    id: int,
    version: int,
    release: Option<string>,
    maturity: Maturity,
    downloadUrl: string,
    downloadMd5: string,
    vcsSystem: Option<string>,
    vcsSystemOther: Option<string>,
    vcsRepositoryUrl: Option<string>,
    vcsBranch: Option<string>,
    vcsTag: Option<string>,
    timeCreated: Instant)

  const ClassName := "Vidalia\\Composer\\MoodleOrg\\Moodle\\MoodlePluginVersion"

  function TypeName(v: Scalar): string
  {
    match v
    case JNull => "null"
    case JInt(_) => "int"
    case JStr(_) => "string"
  }

  function AssignError(v: Scalar, property: string, declared: string): Error
  {
    TypeError("Cannot assign " + TypeName(v) + " to property " + ClassName + "::$" + property + " of type " + declared)
  }

  /** Assigning a decoded value to a `string` property under strict typing. */
  function AssignString(v: Scalar, property: string): (r: Result<string>)
    ensures r.Ok? <==> v.JStr?
    ensures r.Ok? ==> r.value == v.s
    ensures r.Err? ==> r.error == AssignError(v, property, "string")
  {
    if v.JStr? then Ok(v.s) else Err(AssignError(v, property, "string"))
  }

  /** Assigning a decoded value to a `?string` property under strict typing. */
  function AssignNullableString(v: Scalar, property: string): (r: Result<Option<string>>)
    ensures r.Ok? <==> !v.JInt?
    ensures r.Ok? ==> r.value == if v.JStr? then Some(v.s) else None
    ensures r.Err? ==> r.error == AssignError(v, property, "?string")
  {
    match v
    case JNull => Ok(None)
    case JStr(s) => Ok(Some(s))
    case JInt(_) => Err(AssignError(v, property, "?string"))
  }

  /** The maturity code the parser decodes: `$source->maturity ?? "200"`. */
  function MaturityCode(source: RawVersion): (c: Scalar)
    ensures !c.JNull?
    // A missing or null maturity decodes as STABLE.
    ensures source.maturity.JNull? ==> FromCode(StrValOf(c)) == Ok(Stable)
    ensures !source.maturity.JNull? ==> StrValOf(c) == StrValOf(source.maturity)
  {
    if source.maturity.JNull? then JStr("200") else source.maturity
  }

  /** Every property has the type its typed property accepts. */
  predicate PropertiesTypeCheck(source: RawVersion)
  {
    && !source.release.JInt?
    && source.downloadurl.JStr?
    && source.downloadmd5.JStr?
    && !source.vcssystem.JInt?
    && !source.vcssystemother.JInt?
    && !source.vcsrepositoryurl.JInt?
    && !source.vcstag.JInt?
    && !source.vcsbranch.JInt?
  }

  /** The LogicException thrown when the creation time is not a date. */
  function TimeError(shown: string): Error
  {
    Logic("Couldn't convert plugin ->timecreated \"" + shown + "\" to a DateTime")
  }

  /**
   * `MoodlePluginVersion::jsonDeserialize`: the properties are read in source order
   * (id, version, release, maturity, download URL and MD5, the VCS fields, creation time)
   * and the first one that fails decides the exception.
   */
  function JsonDeserialize(source: RawVersion, parseDateTime: DateTimeParser): (r: Result<PluginVersion>)
    ensures r.Ok? <==>
              && PropertiesTypeCheck(source)
              && IsKnownCode(StrValOf(MaturityCode(source)))
              && parseDateTime("@" + StrValOf(source.timecreated)).Some?
    ensures r.Ok? ==>
              && r.value.id == IntValOf(source.id)
              && r.value.version == IntValOf(source.version)
              && FromCode(StrValOf(MaturityCode(source))) == Ok(r.value.maturity)
              && r.value.downloadUrl == source.downloadurl.s
              && r.value.downloadMd5 == source.downloadmd5.s
              && r.value.timeCreated == parseDateTime("@" + StrValOf(source.timecreated)).value
    // A missing or null maturity is STABLE.
    ensures r.Ok? && source.maturity.JNull? ==> r.value.maturity == Stable
    // An unknown maturity code fails the whole parse with the enumeration's exception.
    ensures !source.release.JInt? && !IsKnownCode(StrValOf(MaturityCode(source))) ==>
              r == Err(InvalidArgument("Unknown plugin maturity \"" + StrValOf(MaturityCode(source)) + "\""))
    // A creation time the date parser rejects is a LogicException naming the value.
    ensures PropertiesTypeCheck(source) && IsKnownCode(StrValOf(MaturityCode(source)))
            && parseDateTime("@" + StrValOf(source.timecreated)).None? ==>
              r == Err(TimeError(StrValOf(source.timecreated)))
  {
    var id := IntValOf(source.id);
    var version := IntValOf(source.version);
    var release :- AssignNullableString(source.release, "release");
    var maturity :- MoodlePluginMaturity.JsonDeserialize(MaturityCode(source));
    var downloadUrl :- AssignString(source.downloadurl, "downloadUrl");
    var downloadMd5 :- AssignString(source.downloadmd5, "downloadMd5");
    var vcsSystem :- AssignNullableString(source.vcssystem, "vcsSystem");
    var vcsSystemOther :- AssignNullableString(source.vcssystemother, "vcsSystemOther");
    var vcsRepositoryUrl :- AssignNullableString(source.vcsrepositoryurl, "vcsRepositoryUrl");
    var vcsTag :- AssignNullableString(source.vcstag, "vcsTag");
    var vcsBranch :- AssignNullableString(source.vcsbranch, "vcsBranch");
    var timeCreated := parseDateTime("@" + StrValOf(source.timecreated));
    if timeCreated.None? then Err(TimeError(StrValOf(source.timecreated)))
    else
      Ok(PluginVersion(id, version, release, maturity, downloadUrl, downloadMd5, vcsSystem,
                       vcsSystemOther, vcsRepositoryUrl, vcsBranch, vcsTag, timeCreated.value))
  }

  /** The `?string` properties are copied unchanged; `vcstag` and `vcsbranch` become vcsTag and vcsBranch. */
  lemma NullableFieldsCopied(source: RawVersion, parseDateTime: DateTimeParser)
    requires JsonDeserialize(source, parseDateTime).Ok?
    ensures var v := JsonDeserialize(source, parseDateTime).value;
            && AssignNullableString(source.release, "release") == Ok(v.release)
            && AssignNullableString(source.vcssystem, "vcsSystem") == Ok(v.vcsSystem)
            && AssignNullableString(source.vcssystemother, "vcsSystemOther") == Ok(v.vcsSystemOther)
            && AssignNullableString(source.vcsrepositoryurl, "vcsRepositoryUrl") == Ok(v.vcsRepositoryUrl)
            && AssignNullableString(source.vcstag, "vcsTag") == Ok(v.vcsTag)
            && AssignNullableString(source.vcsbranch, "vcsBranch") == Ok(v.vcsBranch)
  {
  }

  // ---------------------------------------------------------------------------
  // The catalog's own encoding of a version, and the round trip through the parser

  function OptionToScalar(s: Option<string>): Scalar
  {
    if s.Some? then JStr(s.value) else JNull
  }

  /** How the catalog writes a version: numbers as ints, the maturity as its MATURITY_* code, the time in epoch seconds. */
  function ToJson(v: PluginVersion): RawVersion
  {
    RawVersion(JInt(v.id), JInt(v.version), OptionToScalar(v.release), JInt(Code(v.maturity)),
               JStr(v.downloadUrl), JStr(v.downloadMd5), OptionToScalar(v.vcsSystem),
               OptionToScalar(v.vcsSystemOther), OptionToScalar(v.vcsRepositoryUrl),
               OptionToScalar(v.vcsBranch), OptionToScalar(v.vcsTag), JInt(v.timeCreated))
  }

  /** The date parser reads `@<epoch>` back as that instant. */
  predicate ReadsEpoch(parseDateTime: DateTimeParser, t: Instant)
  {
    parseDateTime("@" + IntToStr(t)) == Some(t)
  }

  /** Parsing what the catalog writes gives back the version it describes. */
  lemma RoundTrip(v: PluginVersion, parseDateTime: DateTimeParser)
    requires ReadsEpoch(parseDateTime, v.timeCreated)
    ensures JsonDeserialize(ToJson(v), parseDateTime) == Ok(v)
  {
    var raw := ToJson(v);
    CodeRoundTrip(v.maturity);
    assert MaturityCode(raw) == JInt(Code(v.maturity));
  }
}
