/**
 * The Composer packages the repository makes from one catalog plugin
 * (`Repository::convertPluginToPackages`, src/Repository.php): one package per
 * version, named after the plugin's component and versioned by the calendar transform.
 */
module PackageSynthesis {
  import opened Exceptions
  import opened PhpRuntime
  import opened MoodlePluginVersion
  import opened MoodlePlugin
  import opened VersionTransform

  /** A semver constraint such as `>= 2.0`. */
  datatype Constraint = Constraint(operator: string, version: string)

  /** A Composer link: `source` requires `target` under `constraint`. */
  datatype Link = Link(source: string, target: string, constraint: Constraint, description: string, prettyConstraint: string)

  /** The fields of a Composer `CompletePackage` the repository sets; `links` is `getRequires()`. */
  datatype Package = Package(
    name: string,
    version: string,
    prettyVersion: string,
    description: Option<string>,
    packageType: string,
    distType: Option<string>,
    distUrl: Option<string>,
    releaseDate: Option<Instant>,
    homepage: Option<string>,
    links: map<string, Link>,
    extra: map<string, Option<string>>,
    sourceType: Option<string>,
    sourceUrl: Option<string>,
    sourceReference: Option<string>)

  /** `Link::TYPE_REQUIRE`. */
  const LinkTypeRequire := "requires"
  const InstallersPackage := "composer/installers"
  const InstallerNameKey := "installer-name"
  const DistMd5Key := "moodleorg-distmd5"
  /** The warning PHP raises when a list destructuring reads a missing second element. */
  const UndefinedKeyWarning := "Undefined array key 1"

  /** The result of `explode('_', $component, 2)` read into `[$pluginType, $pluginName]`. */
  datatype Exploded = Exploded(pluginType: string, pluginName: Option<string>)

  /**
   * `explode('_', $component, 2)`: the text before the first underscore and the rest;
   * without an underscore the list has one element and `$pluginName` reads as null.
   */
  function ExplodeOnce(component: string): (r: Exploded)
    ensures r.pluginName.None? <==> '_' !in component
    ensures r.pluginName.None? ==> r.pluginType == component
    ensures r.pluginName.Some? ==> component == r.pluginType + "_" + r.pluginName.value && '_' !in r.pluginType
  {
    if component == [] then Exploded("", None)
    else if component[0] == '_' then
      assert component == "" + "_" + component[1..];
      Exploded("", Some(component[1..]))
    else
      var rest := ExplodeOnce(component[1..]);
      assert component == [component[0]] + component[1..];
      Exploded([component[0]] + rest.pluginType, rest.pluginName)
  }

  /** `"$namespace/{$plugin->getComponent()}"`. */
  function PackageName(namespace: string, component: string): string
  {
    namespace + "/" + component
  }

  /** The condition under which the package gets a VCS source. */
  predicate HasSource(v: PluginVersion)
  {
    && !IsEmptyOrNull(v.vcsSystem)
    && !IsEmptyOrNull(v.vcsRepositoryUrl)
    && (!IsEmptyOrNull(v.vcsTag) || !IsEmptyOrNull(v.vcsBranch))
  }

  /**
   * The body of the loop in `convertPluginToPackages`: the package for one version,
   * every field the setter calls give it. The homepage branch reads `$version->doc`
   * and `$version->bugs`, properties a version does not have, so `empty` is true for
   * both and no homepage is ever set. The three source setters run together, only
   * when the VCS data is usable.
   */
  function PackageFor(packageName: string, exploded: Exploded, pluginName: string, v: PluginVersion): Package
  {
    var calVer := ConvertMoodleVersion(v);
    var source := HasSource(v);
    Package(
      name := packageName,
      version := calVer,
      prettyVersion := calVer,
      description := Some(pluginName),
      packageType := "moodle-" + exploded.pluginType,
      distType := Some("zip"),
      distUrl := Some(v.downloadUrl),
      releaseDate := Some(v.timeCreated),
      homepage := None,
      links := map[InstallersPackage := Link(packageName, InstallersPackage, Constraint(">=", "2.0"), LinkTypeRequire, "~2.0")],
      extra := map[InstallerNameKey := exploded.pluginName, DistMd5Key := Some(v.downloadMd5)],
      sourceType := if source then v.vcsSystem else None,
      sourceUrl := if source then v.vcsRepositoryUrl else None,
      sourceReference := if !source then None else if v.vcsTag.Some? then v.vcsTag else v.vcsBranch)
  }

  /**
   * The package for one version, field by field: everything `convertPluginToPackages`
   * sets, and nothing else.
   */
  lemma PackageShape(packageName: string, exploded: Exploded, pluginName: string, v: PluginVersion)
    ensures var p := PackageFor(packageName, exploded, pluginName, v);
            && p.name == packageName
            && p.version == p.prettyVersion == ConvertMoodleVersion(v)
            && p.description == Some(pluginName)
            && p.packageType == "moodle-" + exploded.pluginType
            && p.distType == Some("zip") && p.distUrl == Some(v.downloadUrl) && p.releaseDate == Some(v.timeCreated)
            && p.homepage.None?
    // Exactly one requirement: composer/installers at >= 2.0, written "~2.0".
    ensures var p := PackageFor(packageName, exploded, pluginName, v);
            && p.links.Keys == {InstallersPackage}
            && p.links[InstallersPackage] == Link(packageName, InstallersPackage, Constraint(">=", "2.0"), LinkTypeRequire, "~2.0")
    // Exactly two extras: the installer name and the catalog's MD5 of the zip.
    ensures var p := PackageFor(packageName, exploded, pluginName, v);
            && p.extra.Keys == {InstallerNameKey, DistMd5Key}
            && p.extra[InstallerNameKey] == exploded.pluginName
            && p.extra[DistMd5Key] == Some(v.downloadMd5)
    // A source is set, all three fields together, exactly when the VCS data is usable;
    // the reference is the tag whenever the tag is not null, else the branch.
    ensures var p := PackageFor(packageName, exploded, pluginName, v);
            && (p.sourceType.Some? <==> HasSource(v))
            && (p.sourceUrl.Some? <==> HasSource(v))
            && (p.sourceReference.Some? <==> HasSource(v))
            && (HasSource(v) ==>
                  && p.sourceType == v.vcsSystem
                  && p.sourceUrl == v.vcsRepositoryUrl
                  && p.sourceReference == (if v.vcsTag.Some? then v.vcsTag else v.vcsBranch))
  {
  }

  /** `f` applied to each element, in order. */
  function MapSeq<A, B>(f: A -> B, s: seq<A>): (r: seq<B>)
    ensures |r| == |s|
    ensures forall i :: 0 <= i < |s| ==> r[i] == f(s[i])
  {
    if s == [] then [] else MapSeq(f, s[..|s| - 1]) + [f(s[|s| - 1])]
  }

  lemma MapSeqStep<A, B>(f: A -> B, s: seq<A>, i: int)
    requires 0 <= i < |s|
    ensures MapSeq(f, s[..i + 1]) == MapSeq(f, s[..i]) + [f(s[i])]
  {
    assert s[..i + 1][..i] == s[..i];
  }

  /** The loop body as a function of the version, for one plugin. */
  function Maker(packageName: string, exploded: Exploded, pluginName: string): PluginVersion -> Package
  {
    v => PackageFor(packageName, exploded, pluginName, v)
  }

  /** The packages for a list of versions, one per version in order, as the generator's loop yields them. */
  function PackagesFor(packageName: string, exploded: Exploded, pluginName: string, versions: seq<PluginVersion>): (ps: seq<Package>)
    ensures |ps| == |versions|
    ensures forall i :: 0 <= i < |versions| ==> ps[i] == PackageFor(packageName, exploded, pluginName, versions[i])
  {
    MapSeq(Maker(packageName, exploded, pluginName), versions)
  }

  /** One more version yields one more package, at the end. */
  lemma PackagesForStep(packageName: string, exploded: Exploded, pluginName: string, versions: seq<PluginVersion>, i: int)
    requires 0 <= i < |versions|
    ensures PackagesFor(packageName, exploded, pluginName, versions[..i + 1])
            == PackagesFor(packageName, exploded, pluginName, versions[..i]) + [PackageFor(packageName, exploded, pluginName, versions[i])]
  {
    MapSeqStep(Maker(packageName, exploded, pluginName), versions, i);
  }

  /** What running the generator to its end gives: the packages yielded, then the exception if one escaped. */
  datatype Conversion = Conversion(yielded: seq<Package>, failure: Option<Error>)

  /**
   * `convertPluginToPackages` run to completion. The only exception is the
   * "Undefined array key 1" warning of the destructuring, for a component without
   * an underscore, when the host's error handler turns warnings into ErrorException
   * (`warningsThrow`); it escapes before the first package.
   */
  function Convert(namespace: string, plugin: Plugin, warningsThrow: bool): (c: Conversion)
    ensures c.failure.Some? <==> warningsThrow && '_' !in plugin.component
    ensures c.failure.Some? ==> c == Conversion([], Some(ErrorException(UndefinedKeyWarning)))
    // Otherwise one package per version, in the catalog's order.
    ensures c.failure.None? ==>
              && c.yielded == PackagesFor(PackageName(namespace, plugin.component), ExplodeOnce(plugin.component), plugin.name, plugin.versions)
              && |c.yielded| == |plugin.versions|
              && forall i :: 0 <= i < |plugin.versions| ==>
                   c.yielded[i] == PackageFor(PackageName(namespace, plugin.component), ExplodeOnce(plugin.component),
                                              plugin.name, plugin.versions[i])
  {
    var exploded := ExplodeOnce(plugin.component);
    if exploded.pluginName.None? && warningsThrow then
      Conversion([], Some(ErrorException(UndefinedKeyWarning)))
    else
      var packageName := PackageName(namespace, plugin.component);
      Conversion(PackagesFor(packageName, exploded, plugin.name, plugin.versions), None)
  }

  // ---------------------------------------------------------------------------
  // Lemmas

  /** Every package of a plugin carries the plugin's name and the installer type of its component. */
  lemma PackagesShareIdentity(namespace: string, plugin: Plugin, warningsThrow: bool, i: int, j: int)
    requires 0 <= i < |Convert(namespace, plugin, warningsThrow).yielded|
    requires 0 <= j < |Convert(namespace, plugin, warningsThrow).yielded|
    ensures var ps := Convert(namespace, plugin, warningsThrow).yielded;
            && ps[i].name == ps[j].name == namespace + "/" + plugin.component
            && ps[i].packageType == ps[j].packageType
            && ps[i].extra[InstallerNameKey] == ps[j].extra[InstallerNameKey]
  {
    var e := ExplodeOnce(plugin.component);
    PackageShape(PackageName(namespace, plugin.component), e, plugin.name, plugin.versions[i]);
    PackageShape(PackageName(namespace, plugin.component), e, plugin.name, plugin.versions[j]);
  }

  /**
   * The component is recoverable from a package: the type after `moodle-`, an
   * underscore, then the installer name.
   */
  lemma ComponentRecoverable(namespace: string, plugin: Plugin, warningsThrow: bool, i: int)
    requires '_' in plugin.component
    requires 0 <= i < |plugin.versions|
    ensures var p := Convert(namespace, plugin, warningsThrow).yielded[i];
            && p.packageType[..7] == "moodle-"
            && p.extra[InstallerNameKey].Some?
            && plugin.component == p.packageType[7..] + "_" + p.extra[InstallerNameKey].value
  {
    var e := ExplodeOnce(plugin.component);
    var p := Convert(namespace, plugin, warningsThrow).yielded[i];
    assert p.packageType == "moodle-" + e.pluginType;
    assert p.packageType[7..] == e.pluginType;
  }

  /** Without an underscore and with warnings left as warnings, the type is the whole component and the installer name is null. */
  lemma NoUnderscoreComponent(namespace: string, plugin: Plugin, i: int)
    requires '_' !in plugin.component
    requires 0 <= i < |plugin.versions|
    ensures var p := Convert(namespace, plugin, false).yielded[i];
            && p.packageType == "moodle-" + plugin.component
            && p.extra[InstallerNameKey].None?
  {
  }

  /**
   * `??` tests for null, not emptiness: an empty-string tag is the reference even
   * when a usable branch exists.
   */
  lemma EmptyTagShadowsBranch(packageName: string, exploded: Exploded, pluginName: string, v: PluginVersion)
    requires !IsEmptyOrNull(v.vcsSystem) && !IsEmptyOrNull(v.vcsRepositoryUrl)
    requires v.vcsTag == Some("") && !IsEmptyOrNull(v.vcsBranch)
    ensures PackageFor(packageName, exploded, pluginName, v).sourceReference == Some("")
  {
  }

  /** A tag or branch that is null, "" or "0" is empty to PHP: with neither usable, no source is set. */
  lemma ZeroRefsGiveNoSource(packageName: string, exploded: Exploded, pluginName: string, v: PluginVersion)
    requires IsEmptyOrNull(v.vcsTag) && IsEmptyOrNull(v.vcsBranch)
    ensures PackageFor(packageName, exploded, pluginName, v).sourceUrl.None?
  {
  }

  /**
   * Two versions of one plugin with distinct ten-digit version numbers never
   * yield packages with the same version, unless they differ in maturity alone.
   */
  lemma DistinctVersions(namespace: string, plugin: Plugin, warningsThrow: bool, i: int, j: int)
    requires 0 <= i < |Convert(namespace, plugin, warningsThrow).yielded|
    requires 0 <= j < |Convert(namespace, plugin, warningsThrow).yielded|
    requires IsTenDigit(plugin.versions[i].version) && IsTenDigit(plugin.versions[j].version)
    ensures var ps := Convert(namespace, plugin, warningsThrow).yielded;
            ps[i].version == ps[j].version <==>
              plugin.versions[i].version == plugin.versions[j].version
              && plugin.versions[i].maturity == plugin.versions[j].maturity
  {
    ConvertInjective(plugin.versions[i], plugin.versions[j]);
  }
}
