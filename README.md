# composer-moodleorg in Dafny

This project models the core of composer-moodleorg. That Composer plugin offers every
plugin listed by download.moodle.org as a Composer package. The model covers:

- **The catalog and its parse.** The plugin list comes as a JSON envelope with a
  snapshot time and plugins. Each plugin has its versions, and each version has a
  maturity code. `MoodlePluginMaturity`, `MoodlePluginVersion`, `MoodlePlugin` and
  `PlugListResponse` parse these into immutable records. Each parse either fails with
  the exception PHP would throw or gives the record.
- **The version transform.** `convertMoodleVersion` turns Moodle's `YYYYMMDDNN`
  version number into the Composer version `Y.M.D.N`. It adds `-alpha`, `-beta` or
  `-rc` for pre-release maturities.
- **Package synthesis.** `convertPluginToPackages` makes one Composer package per
  version of a plugin. Each package has a name, an installer type, a zip dist, the
  `composer/installers` requirement, two extras and an optional VCS source.
- **The repository.** `queryAllPlugins` decides between the cache and one HTTP
  request. `initialize` builds the package array: it skips empty components and
  isolates each plugin's exception as a warning. The repository is a class whose
  package array, IO log, request count and cache writes change as the methods run.
- **The download guards of the Composer plugin.** A pre-download throttle counter
  sleeps once per *n* + 1 downloads, the first time before the (*n* + 1)-th download. A post-download check compares the file's MD5
  with the catalog's.

The files are:

| file | module |
|---|---|
| `exceptions.dfy` | `Exceptions`: option, result, the exceptions, and the all-or-first-failure map used by the list parses |
| `php_runtime.dfy` | `PhpRuntime`: the PHP semantics the code relies on (`intval`, `strval`, `substr`, `empty`, decimal numerals) |
| `maturity.dfy` | `MoodlePluginMaturity` |
| `plugin_version.dfy` | `MoodlePluginVersion` |
| `moodle_plugin.dfy` | `MoodlePlugin` |
| `plug_list_response.dfy` | `PlugListResponse` |
| `version_transform.dfy` | `VersionTransform`: `convertMoodleVersion` |
| `package_synthesis.dfy` | `PackageSynthesis`: the package record and `convertPluginToPackages` as a function |
| `repository.dfy` | `Repository`: the cache-or-fetch decision, the build of the package array, and the `Repository` class |
| `composer_plugin.dfy` | `ComposerPlugin`: the throttle, the checksum guard, and the `Plugin` class |

### Modelling choices

- **Decoded JSON.** A decoded JSON value is a `Scalar`: null, an int or a string. An
  absent property reads as null.
- **Type errors.** The Moodle classes and `Repository.php` declare
  `strict_types`. So a typed property given a value of the wrong type throws a
  TypeError with PHP's message, and the model does the same.
- **Outside calls.** The outside world is a set of parameters. The date parser is a
  partial function from the `"@<epoch>"` text to an instant. `json_decode`, the
  cache's age, read and write outcome, the HTTP response, `hash_file` and the
  environment variables are values the caller supplies.
- **Warnings.** PHP warnings become exceptions only when the host installs an error
  handler that throws. The flag `warningsThrow` models that handler.
- **The destructuring warning.** `[$pluginType, $pluginName] = explode('_', $component, 2)`
  on a component without `_` raises the warning "Undefined array key 1". This is
  the one way converting a plugin can throw, and it happens before any package is
  yielded. When warnings do not throw, `$pluginName` is null and so is the
  `installer-name` extra.
- **Time error messages.** The time errors of `MoodlePlugin` and `PlugListResponse`
  interpolate `$source->timecreated`, a property those objects do not have. The
  message therefore reads `Couldn't convert plugin ->timecreated "" to a DateTime`.
- **The homepage.** The homepage branch at src/Repository.php:169-173 reads
  `$version->doc` and `$version->bugs`, properties a `MoodlePluginVersion` does not
  declare. `empty()` is true for both without a warning, so no homepage is ever set.
- **The throttle limit.** `COMPOSER_MOODLEORG_THROTTLE_COUNT` is compared with the
  counter. The model compares an all-digit value as a number, and any other
  non-empty value as a string with the counter's decimal numeral.

### Where the code and its own comments differ

The model follows the code in each case.

- **Throttle.** The comment at src/Plugin.php:89-90 says the plugin waits for <s>
  seconds after every <n> downloads. The counter is incremented before each download
  of a `CompleteMoodlePackage`, and the handler sleeps when it exceeds <n>. With the
  defaults, the first ten downloads pass and the eleventh sleeps 5 seconds first. The
  counter is then reset to 0, so that eleventh download is not counted, and every
  later sleep comes after 11 downloads: one sleep per <n> + 1 downloads
  (`ComposerPlugin.RunFromZero`, `ComposerPlugin.DefaultsSleepOnEleventh`).
- **Version example.** The doc comment of `convertMoodleVersion` at
  src/Repository.php:205 gives `2024.7.1800` as the result for `2024071800`. The
  code produces `2024.7.18.0` (`VersionTransform.Example`).

## Model

| member | source | states |
|---|---|---|
| `MoodlePluginMaturity.FromCode` | src/Moodle/MoodlePluginMaturity.php:27-33 | succeeds exactly for the codes "0", "50", "100", "150" and "200". A result is the level whose MATURITY_* numeral is the code, or ALPHA for "0". Any other code is an InvalidArgumentException `Unknown plugin maturity "<code>"` |
| `MoodlePluginMaturity.JsonDeserialize` | src/Moodle/MoodlePluginMaturity.php:25-34 | decodes `strval` of an int or string. It succeeds iff that string is a known code, and then gives the level whose constant's numeral it is (ALPHA for "0"); otherwise it gives the InvalidArgumentException naming the value |
| `MoodlePluginMaturity.Code` | src/Moodle/MoodlePluginMaturity.php:28-31 | each level's MATURITY_* constant is itself an accepted code |
| `MoodlePluginMaturity.CodeRoundTrip` | src/Moodle/MoodlePluginMaturity.php:27-31 | every level is decoded back from its code, given as an int or as a string |
| `MoodlePluginMaturity.IntCodes` | src/Moodle/MoodlePluginMaturity.php:27-32 | an int is accepted iff it is 0, 50, 100, 150 or 200 |
| `MoodlePluginMaturity.IntAndStringAgree` | src/Moodle/MoodlePluginMaturity.php:27 | an int and its decimal string decode identically |
| `MoodlePluginMaturity.AlphaHasTwoCodes` | src/Moodle/MoodlePluginMaturity.php:28-31 | "0" and "50" both give ALPHA, and every level is reachable |
| `MoodlePluginMaturity.NoNormalisation` | src/Moodle/MoodlePluginMaturity.php:27-32 | "0200", " 200", "200 " and "" are rejected |
| `MoodlePluginVersion.AssignString` | src/Moodle/MoodlePluginVersion.php:115-116 | a `string` property accepts exactly a string, unchanged; null or an int is PHP's TypeError |
| `MoodlePluginVersion.MaturityCode` | src/Moodle/MoodlePluginVersion.php:114 | `?? "200"` never hands null to the maturity parse: a missing or null maturity decodes as STABLE, and any other value is passed on as it is |
| `MoodlePluginVersion.AssignNullableString` | src/Moodle/MoodlePluginVersion.php:113 | a `?string` property accepts null and strings unchanged and rejects ints with PHP's TypeError |
| `MoodlePluginVersion.JsonDeserialize` | src/Moodle/MoodlePluginVersion.php:107-134 | succeeds iff the properties are well typed, the maturity (`?? "200"`) is known and the creation time is readable. `id` and `version` are `intval`s, and the URL and MD5 are copied. A null maturity gives STABLE, an unknown one gives the enum's exception, and an unreadable time gives the LogicException naming it |
| `MoodlePluginVersion.NullableFieldsCopied` | src/Moodle/MoodlePluginVersion.php:113-121 | `release` and the `vcs*` fields are copied unchanged, with `vcstag` going to vcsTag and `vcsbranch` to vcsBranch |
| `MoodlePluginVersion.RoundTrip` | src/Moodle/MoodlePluginVersion.php:107-134 | parsing the catalog's encoding of a version gives that version back |
| `MoodlePlugin.JsonDeserialize` | src/Moodle/MoodlePlugin.php:92-119 | an unreadable release time fails before any version is parsed. Otherwise the parse succeeds iff every version parses. The versions keep their length and order, and a failure carries the first failing version's exception. The other fields are `intval`/`strval` coercions |
| `MoodlePlugin.RoundTrip` | src/Moodle/MoodlePlugin.php:92-119 | parsing the catalog's encoding of a plugin gives that plugin back, versions included |
| `PlugListResponse.JsonDeserialize` | src/Moodle/PlugListResponse.php:34-54 | an unreadable timestamp fails before any plugin is parsed. Otherwise the parse succeeds iff every plugin parses, with length and order kept and the first failure propagated. `getTimestamp` is the parsed time |
| `PlugListResponse.RoundTrip` | src/Moodle/PlugListResponse.php:24-54 | parsing the catalog's encoding of a snapshot gives it back: the same timestamp and the same plugins |
| `Exceptions.MapAll` | src/Moodle/PlugListResponse.php:48-51 | `array_map` under exceptions: it succeeds iff every element succeeds, keeping order and length. Otherwise it fails with the first failing element's error |
| `VersionTransform.DigitGroups` | src/Repository.php:212-217 | `intval(substr(…))` of the digits at 0-3, 4-5, 6-7 and 8-9 of the version's numeral. No contract of its own: `PositionalGroups`, `TenDigitGroups` and `ShortVersionGroups` state its meaning |
| `VersionTransform.MaturitySuffix` | src/Repository.php:221-226 | the suffix is `-alpha` for ALPHA, `-beta` for BETA, `-rc` for RC and empty exactly for STABLE |
| `VersionTransform.ConvertMoodleVersion` | src/Repository.php:210-229 | the rendered groups followed by the maturity suffix. No contract of its own: `TenDigitVersion`, `Example` and `ConvertInjective` state what it gives |
| `VersionTransform.PositionalGroups` | src/Repository.php:212-217 | on a ten-digit string, the four groups are the values of the digits at 0-3, 4-5, 6-7 and 8-9, with leading zeros dropped |
| `VersionTransform.TenDigitGroups` | src/Repository.php:212-219 | for a ten-digit number n, the groups are n/10^6, n/10^4 mod 100, n/100 mod 100 and n mod 100, and they give back n |
| `VersionTransform.TenDigitVersion` | src/Repository.php:210-229 | a ten-digit version converts to `Y.M.D.N` of those groups, followed by the maturity suffix |
| `VersionTransform.ShortVersionGroups` | src/Repository.php:214-217 | groups past the end of a short version string are 0 |
| `VersionTransform.Example` | src/Repository.php:205-228 | 2024071800 converts to `2024.7.18.0` plus the maturity suffix, and to exactly `2024.7.18.0` when STABLE |
| `VersionTransform.ExampleAlpha` | src/Repository.php:205-228 | 2024071800 with ALPHA converts to `2024.7.18.0` followed by `-alpha` |
| `VersionTransform.RenderInjective` | src/Repository.php:219-226 | a rendered version with non-negative groups determines its groups and its maturity |
| `VersionTransform.ConvertInjective` | src/Repository.php:210-229 | two ten-digit releases share a Composer version iff they have the same number and maturity |
| `PackageSynthesis.ExplodeOnce` | src/Repository.php:157 | splits at the first `_`, and the parts rejoin to the component. Without `_` the name is null and the type is the whole component |
| `PackageSynthesis.HasSource` | src/Repository.php:190-194 | a source is set iff the VCS system and URL are non-empty to PHP and so is the tag or the branch. It is a predicate; `PackageShape` and `ZeroRefsGiveNoSource` state its effect |
| `PackageSynthesis.PackageFor` | src/Repository.php:160-198 | the loop body of `convertPluginToPackages` for one version. No contract of its own: `PackageShape` states every field |
| `PackageSynthesis.PackageShape` | src/Repository.php:160-198 | names the package `<namespace>/<component>` and versions it by the transform. Its type is `moodle-<type>`, its dist a zip of the download URL, and it has no homepage. Its one requirement is composer/installers `>= 2.0` (`~2.0`), and its only extras are the installer name and the MD5. A source is set iff system and URL are non-empty and the tag or branch is, with the tag as reference whenever it is not null |
| `PackageSynthesis.PackagesFor` | src/Repository.php:159-201 | one package per version, in order |
| `PackageSynthesis.Convert` | src/Repository.php:152-202 | it fails iff warnings throw and the component has no `_`, and then yields nothing and gives ErrorException "Undefined array key 1". Otherwise it yields exactly one package per version, in order |
| `PackageSynthesis.PackagesShareIdentity` | src/Repository.php:155-164 | all packages of a plugin share its name, type and installer name |
| `PackageSynthesis.ComponentRecoverable` | src/Repository.php:157-186 | the type after `moodle-`, then `_`, then the installer name give back the component. `mod_foo_bar` has type `moodle-mod` and name `foo_bar` |
| `PackageSynthesis.NoUnderscoreComponent` | src/Repository.php:157-186 | when warnings do not throw, a component without `_` gives the type `moodle-<component>` and a null installer name |
| `PackageSynthesis.EmptyTagShadowsBranch` | src/Repository.php:190-197 | an empty-string tag is the source reference even when the branch is usable |
| `PackageSynthesis.ZeroRefsGiveNoSource` | src/Repository.php:190-194 | a tag and a branch that are each null, "" or "0" (any mix, such as a null tag with branch "0") fail the `empty()` test, so no source is set |
| `PackageSynthesis.DistinctVersions` | src/Repository.php:159-161 | packages of one plugin with ten-digit versions share a version iff the number and the maturity coincide |
| `Repository.DecodePlugins` | src/Repository.php:142 | a decoded value that is not an object gives the TypeError naming its type. Otherwise the result is the parsed list's plugins, or the parse's exception |
| `Repository.Query` | src/Repository.php:116-143 | makes at most one request, and none iff the cache age is under 600 and the read succeeds (then the cached list is decoded). A false response gives LogicException "Failed to query https://download.moodle.org/api/1.3/pluglist.php". Otherwise it logs "HTTP GET <url>", writes the cache unless it is read-only, warns "Failed to cache pluglist.json: <message>" on a write error, and decodes the response |
| `Repository.CacheIsFresh` | src/Repository.php:122 | the cache is used iff it has an age, the age is under 600 seconds and the read succeeds. It is a predicate; `Query` states its effect |
| `Repository.CacheWriteFailureIsOnlyLogged` | src/Repository.php:134-142 | a failing cache write changes nothing but one extra warning |
| `Repository.FreshCacheIgnoresNetwork` | src/Repository.php:122-124 | with a fresh cache, the HTTP response has no influence |
| `Repository.IngestOne` | src/Repository.php:86-97 | an empty component adds nothing. Otherwise a plugin adds its yielded packages and at most one warning, written iff its conversion threw and carrying the exception's message |
| `Repository.Ingest` | src/Repository.php:86-98 | the plugin loop of `initialize`: each plugin's contribution, one after another. No contract of its own: `IngestConcat`, `FailureIsIsolated`, `AtMostOneWarningPerPlugin` and the other lemmas below state it |
| `Repository.AtMostOneWarningPerPlugin` | src/Repository.php:91-97 | the build writes at most one warning per plugin |
| `Repository.IngestConcat` | src/Repository.php:86-98 | the build of two plugin lists one after the other is the build of each |
| `Repository.FailureIsIsolated` | src/Repository.php:91-97 | the plugins after a failing one add exactly what they would add alone |
| `Repository.NoWarningsWithoutHandler` | src/Repository.php:91-97 | without a throwing error handler the build writes no warning |
| `Repository.PackagesInNamespace` | src/Repository.php:155 | every package added is named `<namespace>/…` |
| `Repository.EmptyComponentsAddNothing` | src/Repository.php:87-89 | plugins with empty components add no package and no warning |
| `Repository.Repository.constructor` | src/Repository.php:54-73 | the namespace is COMPOSER_MOODLEORG_NAMESPACE when set, else `moodledotorg`, and the cache is read-only as configured |
| `Repository.Repository.QueryAllPlugins` | src/Repository.php:116-143 | the result, requests, cache writes and log follow `Query`, and the package array is untouched |
| `Repository.Repository.ConvertPluginToPackages` | src/Repository.php:152-202 | the generator's loop yields what `Convert` states |
| `Repository.Repository.AddPackages` | src/Repository.php:92-94 | `addPackage` of each yielded package, in order |
| `Repository.Repository.Initialize` | src/Repository.php:80-98 | the package array is emptied and the list queried. A query exception escapes with no package added. Otherwise the array is the build `Ingest` of the plugins, and the log is the query's log followed by the build's warnings |
| `Repository.Repository.IngestPlugins` | src/Repository.php:86-97 | the plugin loop adds exactly the packages of `Ingest` after those already there and writes its warnings after the log so far; requests and cache writes are untouched |
| `ComposerPlugin.Limit` | src/Plugin.php:91 | an unset, "" or "0" limit is 10, an all-digit limit is its number, and anything else is compared as text |
| `ComposerPlugin.SleepSeconds` | src/Plugin.php:92 | an unset, "" or "0" duration is 5 and an all-digit one is its number. Anything else is the TypeError of `sleep` |
| `ComposerPlugin.Exceeds` | src/Plugin.php:91 | the incremented counter is compared with a numeric limit as a number, and with a text limit as text against the counter's numeral. It is a predicate; `ThrottleStep` and `TextualLimitNeverSleeps` state its effect |
| `ComposerPlugin.ThrottleStep` | src/Plugin.php:91-94 | the counter is incremented first. A sleep happens iff the new value exceeds the limit and the duration is valid, and then the counter is 0. A throwing `sleep` keeps the incremented counter |
| `ComposerPlugin.ThrottleBounded` | src/Plugin.php:91-94 | with a numeric limit L and a valid sleep, a counter within 0..L stays within it |
| `ComposerPlugin.Run` | src/Plugin.php:71-94 | n qualifying downloads in a row: at most one sleep per download, and none when `sleep` would throw |
| `ComposerPlugin.RunFromZero` | src/Plugin.php:71-94 | from 0, n downloads leave the counter at n mod (L+1) after n div (L+1) sleeps, each of the configured duration |
| `ComposerPlugin.DefaultsSleepOnEleventh` | src/Plugin.php:89-94 | with the defaults, ten downloads do not sleep, and the eleventh sleeps 5 seconds and leaves the counter at 0 |
| `ComposerPlugin.TextualLimitNeverSleeps` | src/Plugin.php:91 | a text limit starting above '9' is never exceeded |
| `ComposerPlugin.ChecksumVerdict` | src/Plugin.php:106-124 | fails iff the context is a package whose extra has `moodleorg-distmd5` and the file's MD5 is not that value. The failure is the UnexpectedValueException naming the source URL |
| `ComposerPlugin.SynthesizedPackageChecksum` | src/Plugin.php:113-124 | a package made by the repository passes iff the file's MD5 is the catalog's download MD5 |
| `ComposerPlugin.Plugin.constructor` | src/Plugin.php:71 | the counter starts at 0 with no sleeps |
| `ComposerPlugin.Plugin.OnPreFileDownload` | src/Plugin.php:80-95 | a context that is not a Moodle package changes nothing. Otherwise the counter, the sleeps and the outcome follow `ThrottleStep`, and a counter within a numeric limit stays within it |
| `ComposerPlugin.Plugin.OnPostFileDownload` | src/Plugin.php:104-125 | the guard's outcome is `ChecksumVerdict` |

## Left out

- HTTP, the Composer cache, `json_decode`, `DateTimeImmutable`, `hash_file`, `sleep`
  and `Platform::getEnv` are foreign calls or I/O. Their results are parameters, and
  a sleep is recorded as its duration in `Plugin.sleeps`.
- Composer's `CompletePackage`, `Link`, `Constraint` and `ArrayRepository` belong to
  the host library. A package is a value record holding every field the setter calls
  give it, not a mutable object, so the order of the setter calls is not modelled. Composer's lowercasing of package names and version
  normalisation are not modelled.
- The cache directory naming (`Preg::replace`, `Url::sanitize`) is not modelled.
  Neither are `activate`, `deactivate`, `uninstall` and `getSubscribedEvents`, which
  are framework wiring. `getRepoName` is the constant `Repository.RepoName`.
- The type test `instanceof CompleteMoodlePackage` is a boolean parameter. That class
  is not part of this model.
- JSON floats, booleans, arrays and nested objects in scalar positions are not
  modelled. Nor are `intval` of exponent forms or hexadecimal, or the saturation of
  64-bit ints.
- Only the "Undefined array key 1" warning of the component split is modelled as a
  warning that a throwing error handler turns into an ErrorException. Other warnings
  are modelled as plain PHP without such a handler, where they do not throw:
  - an absent property of a decoded object reads as null. The model then parses it
    as 0, "" or null (`id`, `version`, `name`, `component`, `source`, `doc`, `bugs`,
    `discussion`, `release`, `vcs*`), as "@" for a time, or gives the TypeError of a
    `string` property (`downloadurl`, `downloadmd5`). Under a throwing handler PHP
    fails first with ErrorException "Undefined property: stdClass::$…";
  - the undeclared `$source->timecreated` in the time-error messages reads as "",
    where a throwing handler would raise that ErrorException instead of the
    LogicException;
  - a failing `file_get_contents` (src/Repository.php:128) or `hash_file`
    (src/Plugin.php:118) is modelled as returning `false`, which gives the
    LogicException or the UnexpectedValueException. Under a throwing handler their
    warning becomes an ErrorException first.
- An absent or null `versions` or `plugins` array makes `array_map` throw a
  TypeError. The model's decoded objects always hold a list there, so it cannot
  represent that case.
- `Repository.NotAnObject`: the TypeError for a decoded non-object ends at "<type>
  given". PHP adds ", called in <file> on line <n>", and the file is the installed
  path of `Repository.php`, which depends on the host.
- `ComposerPlugin.Limit`: only all-digit strings count as numeric. PHP 8 also treats
  signed, decimal, exponent and whitespace-padded strings as numeric.
- `ComposerPlugin.SleepSeconds`: only all-digit strings are valid. `sleep(int)` is
  called without strict typing, so PHP also accepts numeric strings such as " 5", "5 ",
  "+5", "5.0" and "5e0" silently; the model gives these the TypeError. Leading-numeric
  strings (accepted with a warning) and negative values (a ValueError) are not
  modelled.
- Generator laziness: `convertPluginToPackages` is modelled as run to its end. The
  only exception it can raise comes before the first package, so the order of
  additions is the same.
