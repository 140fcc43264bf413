/**
 * The Composer plugin's two download guards (src/Plugin.php): a throttle before each
 * download from download.moodle.org and an MD5 check after each package download.
 */
module ComposerPlugin {
  import opened Exceptions
  import opened PhpRuntime
  import opened MoodlePluginVersion
  import opened PackageSynthesis

  const DefaultThrottleCount := 10
  const DefaultThrottleSleep := 5

  /**
   * What `++$throttleUsage` is compared with: the int default, the number an
   * all-digit environment value denotes, or any other string, which PHP 8 compares
   * with the counter's decimal string as a string.
   */
  datatype Threshold = Numeric(limit: nat) | Textual(text: string)

  /** `Platform::getEnv("COMPOSER_MOODLEORG_THROTTLE_COUNT") ?: 10`; None is `false`. */
  function Limit(countEnv: Option<string>): (t: Threshold)
    ensures IsEmptyOrNull(countEnv) ==> t == Numeric(DefaultThrottleCount)
    ensures !IsEmptyOrNull(countEnv) && AllDigits(countEnv.value) ==> t == Numeric(DigitsValue(countEnv.value))
    ensures !IsEmptyOrNull(countEnv) && !AllDigits(countEnv.value) ==> t == Textual(countEnv.value)
  {
    if IsEmptyOrNull(countEnv) then Numeric(DefaultThrottleCount)
    else if AllDigits(countEnv.value) then Numeric(DigitsValue(countEnv.value))
    else Textual(countEnv.value)
  }

  /** Byte-wise string order, a proper prefix first: PHP's `<` on two non-numeric strings. */
  predicate LexLess(a: string, b: string)
  {
    if a == [] then b != []
    else if b == [] then false
    else if a[0] != b[0] then a[0] < b[0]
    else LexLess(a[1..], b[1..])
  }

  /** `$throttleUsage > threshold` for the incremented counter. */
  predicate Exceeds(usage: nat, t: Threshold)
  {
    match t
    case Numeric(limit) => usage > limit
    case Textual(text) => LexLess(text, NatToStr(usage))
  }

  /** The TypeError of passing a non-numeric string to `sleep(int $seconds)`. */
  const SleepTypeError := TypeError("sleep(): Argument #1 ($seconds) must be of type int, string given")

  /** The argument `sleep` receives: `getEnv("COMPOSER_MOODLEORG_THROTTLE_SLEEP") ?: 5`, coerced to int. */
  function SleepSeconds(sleepEnv: Option<string>): (r: Result<nat>)
    ensures IsEmptyOrNull(sleepEnv) ==> r == Ok(DefaultThrottleSleep)
    ensures !IsEmptyOrNull(sleepEnv) ==> (r.Ok? <==> AllDigits(sleepEnv.value))
    ensures !IsEmptyOrNull(sleepEnv) && r.Ok? ==> r.value == DigitsValue(sleepEnv.value)
    ensures r.Err? ==> r.error == SleepTypeError
  {
    if IsEmptyOrNull(sleepEnv) then Ok(DefaultThrottleSleep)
    else if AllDigits(sleepEnv.value) then Ok(DigitsValue(sleepEnv.value))
    else Err(SleepTypeError)
  }

  /** The counter after one qualifying download, the sleep it caused, and whether the handler threw. */
  datatype Step = Step(usage: nat, slept: Option<nat>, outcome: Outcome)

  /**
   * One qualifying `onPreFileDownload`: the counter is incremented first; past the
   * threshold the handler sleeps and resets it. A `sleep` that throws leaves the
   * incremented counter in place.
   */
  function ThrottleStep(usage: nat, t: Threshold, duration: Result<nat>): (s: Step)
    ensures s.slept.Some? <==> Exceeds(usage + 1, t) && duration.Ok?
    ensures s.slept.Some? ==> s.slept.value == duration.value && s.usage == 0 && s.outcome == Pass
    ensures !Exceeds(usage + 1, t) ==> s == Step(usage + 1, None, Pass)
    ensures Exceeds(usage + 1, t) && duration.Err? ==> s == Step(usage + 1, None, Fail(duration.error))
  {
    var incremented := usage + 1;
    if !Exceeds(incremented, t) then Step(incremented, None, Pass)
    else if duration.Err? then Step(incremented, None, Fail(duration.error))
    else Step(0, Some(duration.value), Pass)
  }

  /** With a numeric limit L and a valid sleep, the counter stays within 0..L. */
  lemma ThrottleBounded(usage: nat, limit: nat, duration: nat)
    requires usage <= limit
    ensures ThrottleStep(usage, Numeric(limit), Ok(duration)).usage <= limit
  {
  }

  /** The counter and the sleeps after `n` qualifying downloads with the same settings. */
  function Run(usage: nat, t: Threshold, duration: Result<nat>, n: nat): (r: (nat, seq<nat>))
    // At most one sleep per download, and none when `sleep` would throw.
    ensures |r.1| <= n
    ensures duration.Err? ==> r.1 == []
  {
    if n == 0 then (usage, [])
    else
      var (u, sleeps) := Run(usage, t, duration, n - 1);
      var s := ThrottleStep(u, t, duration);
      (s.usage, sleeps + if s.slept.Some? then [s.slept.value] else [])
  }

  /** Euclidean division is determined by quotient and remainder. */
  lemma DivModUnique(n: int, m: int, q: int, r: int)
    requires m > 0 && 0 <= r < m && n == q * m + r
    ensures n / m == q && n % m == r
  {
    var q', r' := n / m, n % m;
    assert q' * m + r' == q * m + r;
    assert (q' - q) * m == r - r';
    if q' > q {
      MulAtLeast(q' - q, m);
    } else if q' < q {
      assert (q - q') * m == r' - r;
      MulAtLeast(q - q', m);
    }
  }

  lemma {:induction false} MulAtLeast(k: int, m: int)
    requires k >= 1 && m >= 0
    ensures k * m >= m
  {
    if k > 1 {
      MulAtLeast(k - 1, m);
      assert k * m == (k - 1) * m + m;
    }
  }

  /** One more download moves the counter modulo L + 1, and completes a sleep on wrapping to 0. */
  lemma CountStep(n: nat, m: nat)
    requires n >= 1 && m >= 1
    ensures (n - 1) % m == m - 1 ==> n % m == 0 && n / m == (n - 1) / m + 1
    ensures (n - 1) % m != m - 1 ==> n % m == (n - 1) % m + 1 && n / m == (n - 1) / m
  {
    var q, r := (n - 1) / m, (n - 1) % m;
    assert n - 1 == q * m + r;
    if r == m - 1 {
      DivModUnique(n, m, q + 1, 0);
    } else {
      DivModUnique(n, m, q, r + 1);
    }
  }

  /**
   * From a fresh counter, n qualifying downloads with limit L leave the counter at
   * n mod (L + 1) and sleep n div (L + 1) times, each for the configured duration.
   */
  lemma {:induction false} RunFromZero(limit: nat, duration: nat, n: nat)
    ensures Run(0, Numeric(limit), Ok(duration), n).0 == n % (limit + 1)
    ensures |Run(0, Numeric(limit), Ok(duration), n).1| == n / (limit + 1)
    ensures forall i :: 0 <= i < |Run(0, Numeric(limit), Ok(duration), n).1| ==> Run(0, Numeric(limit), Ok(duration), n).1[i] == duration
  {
    if n > 0 {
      RunFromZero(limit, duration, n - 1);
      CountStep(n, limit + 1);
    }
  }

  /**
   * With the defaults (limit 10, 5 seconds) the first ten downloads do not sleep; the
   * eleventh sleeps 5 seconds and resets the counter, so it is not counted itself.
   */
  lemma DefaultsSleepOnEleventh()
    ensures Run(0, Numeric(DefaultThrottleCount), Ok(DefaultThrottleSleep), 10) == (10, [])
    ensures Run(0, Numeric(DefaultThrottleCount), Ok(DefaultThrottleSleep), 11) == (0, [5])
  {
    RunFromZero(DefaultThrottleCount, DefaultThrottleSleep, 10);
    RunFromZero(DefaultThrottleCount, DefaultThrottleSleep, 11);
    var r := Run(0, Numeric(DefaultThrottleCount), Ok(DefaultThrottleSleep), 11);
    assert r.0 == 0 && |r.1| == 1 && r.1[0] == 5;
    assert r.1 == [5];
    assert r == (r.0, r.1);
  }

  /**
   * A non-numeric limit that starts above '9' is never exceeded: the counter's
   * decimal string always sorts before it, so the handler never sleeps.
   */
  lemma TextualLimitNeverSleeps(text: string, usage: nat)
    requires text != [] && text[0] > '9'
    ensures !Exceeds(usage, Textual(text))
  {
    var digits := NatToStr(usage);
    assert IsDigit(digits[0]);
  }

  /** A download context: a Composer package, or download metadata. */
  datatype DownloadContext = PackageContext(package: Package) | OtherContext

  /** `"… (downloaded from {$context->getSourceUrl()})"`; a null source URL reads as "". */
  function ChecksumError(p: Package): Error
  {
    UnexpectedValue("Checksum verification of the file failed (downloaded from "
                    + (if p.sourceUrl.Some? then p.sourceUrl.value else "") + ")")
  }

  /** Whether a downloaded file whose MD5 is `fileChecksum` (None when hashing fails) passes the check. */
  function ChecksumVerdict(context: DownloadContext, fileChecksum: Option<string>): (o: Outcome)
    ensures o.Fail? <==>
              && context.PackageContext?
              && DistMd5Key in context.package.extra
              && !(fileChecksum.Some? && context.package.extra[DistMd5Key] == fileChecksum)
    ensures o.Fail? ==> o.error == ChecksumError(context.package)
  {
    if context.OtherContext? || DistMd5Key !in context.package.extra then Pass
    else if fileChecksum.Some? && context.package.extra[DistMd5Key] == fileChecksum then Pass
    else Fail(ChecksumError(context.package))
  }

  /** A package the repository made passes exactly when the file's MD5 is the catalog's. */
  lemma SynthesizedPackageChecksum(packageName: string, exploded: Exploded, pluginName: string, v: PluginVersion, fileChecksum: Option<string>)
    ensures ChecksumVerdict(PackageContext(PackageFor(packageName, exploded, pluginName, v)), fileChecksum) == Pass
            <==> fileChecksum == Some(v.downloadMd5)
  {
  }

  /** The plugin: its download counter and the sleeps it has made. */
  class Plugin {
    var throttleUsage: nat
    var sleeps: seq<nat>

    constructor ()
      ensures throttleUsage == 0 && sleeps == []
    {
      throttleUsage := 0;
      sleeps := [];
    }

    /**
     * `onPreFileDownload`. `isCompleteMoodlePackage` is the outcome of the context's
     * type test; the two environment values are what `Platform::getEnv` returns.
     */
    method OnPreFileDownload(isCompleteMoodlePackage: bool, countEnv: Option<string>, sleepEnv: Option<string>)
      returns (outcome: Outcome)
      modifies this
      ensures !isCompleteMoodlePackage ==>
                outcome == Pass && throttleUsage == old(throttleUsage) && sleeps == old(sleeps)
      ensures isCompleteMoodlePackage ==>
                var s := ThrottleStep(old(throttleUsage), Limit(countEnv), SleepSeconds(sleepEnv));
                && throttleUsage == s.usage
                && sleeps == old(sleeps) + (if s.slept.Some? then [s.slept.value] else [])
                && outcome == s.outcome
      // With a numeric limit and a valid sleep, the counter stays within 0..limit.
      ensures Limit(countEnv).Numeric? && SleepSeconds(sleepEnv).Ok? && old(throttleUsage) <= Limit(countEnv).limit ==>
                throttleUsage <= Limit(countEnv).limit
    {
      if !isCompleteMoodlePackage {
        return Pass;
      }
      throttleUsage := throttleUsage + 1;
      if Exceeds(throttleUsage, Limit(countEnv)) {
        var seconds := SleepSeconds(sleepEnv);
        if seconds.Err? {
          return Fail(seconds.error);
        }
        sleeps := sleeps + [seconds.value];
        throttleUsage := 0;
      }
      outcome := Pass;
    }

    /**
     * `onPostFileDownload`. `fileChecksum` is what `hash_file('md5', …)` returns for
     * the downloaded file, None for `false`.
     */
    method OnPostFileDownload(context: DownloadContext, fileChecksum: Option<string>) returns (outcome: Outcome)
      ensures outcome == ChecksumVerdict(context, fileChecksum)
    {
      if !context.PackageContext? {
        return Pass;
      }
      var extra := context.package.extra;
      if DistMd5Key !in extra {
        return Pass;
      }
      if !(fileChecksum.Some? && extra[DistMd5Key] == fileChecksum) {
        return Fail(ChecksumError(context.package));
      }
      outcome := Pass;
    }
  }
}
