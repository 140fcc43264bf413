/**
 * `Repository::convertMoodleVersion` (src/Repository.php): Moodle's `YYYYMMDDNN` version
 * number becomes the Composer version `year.month.day.minor`, with a suffix for
 * pre-release maturities.
 */
module VersionTransform {
  import opened Exceptions
  import opened PhpRuntime
  import opened MoodlePluginMaturity
  import opened MoodlePluginVersion

  /** The four numbers the version string is built from. */
  datatype CalendarVersion = CalendarVersion(year: int, month: int, day: int, minor: int)

  /** `intval(substr($moodleVersion, …))` of the digit groups at positions 0-3, 4-5, 6-7 and 8-9. */
  function DigitGroups(moodleVersion: string): CalendarVersion
  {
    CalendarVersion(
      IntVal(Substr(moodleVersion, 0, 4)),
      IntVal(Substr(moodleVersion, 4, 2)),
      IntVal(Substr(moodleVersion, 6, 2)),
      IntVal(Substr(moodleVersion, 8, 2)))
  }

  /** `"$year.$month.$day.$minor"`. */
  function Render(g: CalendarVersion): string
  {
    IntToStr(g.year) + "." + IntToStr(g.month) + "." + IntToStr(g.day) + "." + IntToStr(g.minor)
  }

  /** The `match` on the maturity; STABLE falls to the `default` arm. */
  function MaturitySuffix(m: Maturity): (suffix: string)
    ensures suffix == "" <==> m == Stable
    ensures suffix != "" ==> suffix[0] == '-'
    ensures m == Alpha ==> suffix == "-alpha"
    ensures m == Beta ==> suffix == "-beta"
    ensures m == RC ==> suffix == "-rc"
  {
    match m
    case Alpha => "-alpha"
    case Beta => "-beta"
    case RC => "-rc"
    case Stable => ""
  }

  /** The transform of a version number and a maturity. */
  function CalVer(version: int, maturity: Maturity): string
  {
    Render(DigitGroups(IntToStr(version))) + MaturitySuffix(maturity)
  }

  /** `convertMoodleVersion($version)`: a function of the version's number and maturity alone. */
  function ConvertMoodleVersion(v: PluginVersion): string
  {
    CalVer(v.version, v.maturity)
  }

  /** A Moodle version number of exactly ten digits. */
  predicate IsTenDigit(n: int) { 1000000000 <= n < 10000000000 }

  // ---------------------------------------------------------------------------
  // Lemmas

  /** On a ten-digit string, each group is the number its digits denote, leading zeros dropped. */
  lemma PositionalGroups(s: string)
    requires |s| == 10 && AllDigits(s)
    ensures AllDigits(s[..4]) && AllDigits(s[4..6]) && AllDigits(s[6..8]) && AllDigits(s[8..])
    ensures DigitGroups(s) == CalendarVersion(DigitsValue(s[..4]), DigitsValue(s[4..6]),
                                              DigitsValue(s[6..8]), DigitsValue(s[8..]))
  {
    assert AllDigits(s[..4]) && AllDigits(s[4..6]) && AllDigits(s[6..8]) && AllDigits(s[8..]);
    assert Substr(s, 0, 4) == s[..4] && Substr(s, 4, 2) == s[4..6];
    assert Substr(s, 6, 2) == s[6..8] && Substr(s, 8, 2) == s[8..];
    IntValOfDigits(s[..4]);
    IntValOfDigits(s[4..6]);
    IntValOfDigits(s[6..8]);
    IntValOfDigits(s[8..]);
  }

  /** Cutting a digit string in two splits its value by a power of ten. */
  lemma DigitsValueSplit(s: string, k: nat)
    requires AllDigits(s) && k <= |s|
    ensures AllDigits(s[..k]) && AllDigits(s[k..])
    ensures DigitsValue(s) == DigitsValue(s[..k]) * Pow10(|s| - k) + DigitsValue(s[k..])
  {
    assert s == s[..k] + s[k..];
    assert AllDigits(s[..k]) && AllDigits(s[k..]);
    DigitsValueAppend(s[..k], s[k..]);
  }

  /** Three base-100 steps compose into one positional sum. */
  lemma CombineGroups(v: int, v8: int, v6: int, v4: int, b: int, c: int, d: int)
    requires v == v8 * 100 + d && v8 == v6 * 100 + c && v6 == v4 * 100 + b
    ensures v == v4 * 1000000 + b * 10000 + c * 100 + d
  {
  }

  /** Cutting the last two digits off: the value is the head's value times 100 plus the tail's. */
  lemma SplitLastTwo(s: string)
    requires AllDigits(s) && |s| >= 2
    ensures AllDigits(s[..|s| - 2]) && AllDigits(s[|s| - 2..])
    ensures DigitsValue(s) == DigitsValue(s[..|s| - 2]) * 100 + DigitsValue(s[|s| - 2..])
    ensures DigitsValue(s[|s| - 2..]) < 100
  {
    assert Pow10(2) == 100;
    DigitsValueSplit(s, |s| - 2);
    DigitsValueBound(s[|s| - 2..]);
  }

  /** A ten-digit string's value, group by group. */
  lemma TenDigitValue(s: string)
    requires |s| == 10 && AllDigits(s)
    ensures AllDigits(s[..4]) && AllDigits(s[4..6]) && AllDigits(s[6..8]) && AllDigits(s[8..])
    ensures DigitsValue(s) == DigitsValue(s[..4]) * 1000000 + DigitsValue(s[4..6]) * 10000
                              + DigitsValue(s[6..8]) * 100 + DigitsValue(s[8..])
    ensures DigitsValue(s[4..6]) < 100 && DigitsValue(s[6..8]) < 100 && DigitsValue(s[8..]) < 100
  {
    var s8, s6 := s[..8], s[..6];
    SplitLastTwo(s);
    SplitLastTwo(s8);
    assert s8[..6] == s6 && s8[6..] == s[6..8];
    SplitLastTwo(s6);
    assert s6[..4] == s[..4] && s6[4..] == s[4..6];
    CombineGroups(DigitsValue(s), DigitsValue(s8), DigitsValue(s6), DigitsValue(s[..4]),
                  DigitsValue(s[4..6]), DigitsValue(s[6..8]), DigitsValue(s[8..]));
  }

  /** Splitting a number into a base-100 tail is what division and remainder compute. */
  lemma GroupArithmetic(n: int, y: int, m: int, d: int, k: int)
    requires 0 <= m < 100 && 0 <= d < 100 && 0 <= k < 100 && y >= 0
    requires n == y * 1000000 + m * 10000 + d * 100 + k
    ensures n / 1000000 == y && n / 10000 % 100 == m && n / 100 % 100 == d && n % 100 == k
  {
    assert n == (y * 100 + m) * 10000 + (d * 100 + k);
    assert n / 10000 == y * 100 + m;
    assert n == (y * 10000 + m * 100 + d) * 100 + k;
    assert n / 100 == y * 10000 + m * 100 + d;
  }

  /**
   * For a ten-digit number the groups are the year n / 10^6 and the two-digit month,
   * day and minor below it; together they give back n.
   */
  lemma TenDigitGroups(n: int)
    requires IsTenDigit(n)
    ensures var g := DigitGroups(IntToStr(n));
            && g == CalendarVersion(n / 1000000, n / 10000 % 100, n / 100 % 100, n % 100)
            && 1000 <= g.year < 10000 && 0 <= g.month < 100 && 0 <= g.day < 100 && 0 <= g.minor < 100
            && n == g.year * 1000000 + g.month * 10000 + g.day * 100 + g.minor
  {
    var s := NatToStr(n);
    assert IntToStr(n) == s;
    assert Pow10(9) == 1000000000 && Pow10(10) == 10000000000;
    NatToStrLength(n, 9);
    PositionalGroups(s);
    TenDigitValue(s);
    var g := DigitGroups(s);
    GroupArithmetic(n, g.year, g.month, g.day, g.minor);
  }

  /** The version of a ten-digit release in terms of its number: `2024071800` is `2024.7.18.0`. */
  lemma TenDigitVersion(v: PluginVersion)
    requires IsTenDigit(v.version)
    ensures ConvertMoodleVersion(v) ==
              Render(CalendarVersion(v.version / 1000000, v.version / 10000 % 100, v.version / 100 % 100, v.version % 100))
              + MaturitySuffix(v.maturity)
  {
    TenDigitGroups(v.version);
  }

  /** Digit groups past the end of a short version string read as 0. */
  lemma ShortVersionGroups(s: string)
    ensures |s| <= 8 ==> DigitGroups(s).minor == 0
    ensures |s| <= 6 ==> DigitGroups(s).day == 0 && DigitGroups(s).minor == 0
    ensures |s| <= 4 ==> DigitGroups(s).month == 0 && DigitGroups(s).day == 0 && DigitGroups(s).minor == 0
    ensures s == "" ==> DigitGroups(s) == CalendarVersion(0, 0, 0, 0)
  {
  }

  /** The groups of 2024071800 are 2024, 7, 18 and 0, rendered as `2024.7.18.0`. */
  lemma RenderExample(n: int)
    requires n == 2024071800
    ensures Render(CalendarVersion(n / 1000000, n / 10000 % 100, n / 100 % 100, n % 100)) == "2024.7.18.0"
  {
    assert CalendarVersion(n / 1000000, n / 10000 % 100, n / 100 % 100, n % 100) == CalendarVersion(2024, 7, 18, 0);
    assert NatToStr(20) == "20";
    assert NatToStr(202) == "202";
    assert NatToStr(2024) == "2024";
    assert NatToStr(18) == "18";
  }

  /** The worked example: 2024071800 is 2024.7.18.0, followed by the maturity suffix (`-alpha`, `-beta`, `-rc`). */
  lemma Example(v: PluginVersion)
    requires v.version == 2024071800
    ensures ConvertMoodleVersion(v) == "2024.7.18.0" + MaturitySuffix(v.maturity)
    ensures v.maturity == Stable ==> ConvertMoodleVersion(v) == "2024.7.18.0"
  {
    TenDigitVersion(v);
    RenderExample(v.version);
    assert "2024.7.18.0" + "" == "2024.7.18.0";
  }

  /** The worked example with ALPHA: 2024071800 is 2024.7.18.0-alpha. */
  lemma ExampleAlpha(v: PluginVersion)
    requires v.version == 2024071800 && v.maturity == Alpha
    ensures ConvertMoodleVersion(v) == "2024.7.18.0" + "-alpha"
  {
    Example(v);
  }

  /** The digit prefix of digits followed by a non-digit (or nothing) is those digits. */
  lemma {:induction false} DigitPrefixStops(x: string, r: string)
    requires AllDigits(x)
    requires r == [] || !IsDigit(r[0])
    ensures DigitPrefix(x + r) == x
  {
    if x == [] {
      assert x + r == r;
    } else {
      assert (x + r)[0] == x[0];
      assert (x + r)[1..] == x[1..] + r;
      DigitPrefixStops(x[1..], r);
    }
  }

  /** Digits followed by a non-digit (or nothing) split the same way in two equal strings. */
  lemma NumeralPrefix(x: string, r1: string, y: string, r2: string)
    requires AllDigits(x) && AllDigits(y)
    requires r1 == [] || !IsDigit(r1[0])
    requires r2 == [] || !IsDigit(r2[0])
    requires x + r1 == y + r2
    ensures x == y && r1 == r2
  {
    DigitPrefixStops(x, r1);
    DigitPrefixStops(y, r2);
    assert r1 == (x + r1)[|x|..];
    assert r2 == (y + r2)[|y|..];
  }

  /** A numeral followed by a non-digit determines the number and what follows. */
  lemma PeelNumeral(a: nat, t1: string, b: nat, t2: string)
    requires t1 == [] || !IsDigit(t1[0])
    requires t2 == [] || !IsDigit(t2[0])
    requires NatToStr(a) + t1 == NatToStr(b) + t2
    ensures a == b && t1 == t2
  {
    NumeralPrefix(NatToStr(a), t1, NatToStr(b), t2);
  }

  /** The rendered version read from the right: each group a numeral, each separator a dot. */
  lemma RenderNested(g: CalendarVersion, suffix: string)
    requires g.year >= 0 && g.month >= 0 && g.day >= 0 && g.minor >= 0
    ensures Render(g) + suffix ==
              NatToStr(g.year) + ("." + (NatToStr(g.month) + ("." + (NatToStr(g.day) + ("." + (NatToStr(g.minor) + suffix))))))
  {
    var y, m, d, n := NatToStr(g.year), NatToStr(g.month), NatToStr(g.day), NatToStr(g.minor);
    assert IntToStr(g.year) == y && IntToStr(g.month) == m && IntToStr(g.day) == d && IntToStr(g.minor) == n;
    // The left-nested rendering, one piece at a time.
    var l1 := y + ".";
    var l2 := l1 + m;
    var l3 := l2 + ".";
    var l4 := l3 + d;
    var l5 := l4 + ".";
    var l6 := l5 + n;
    assert Render(g) == l6;
    // Move each piece from the left to the right, starting with the last one.
    var r6 := n + suffix;
    AppendAssoc(l5, n, suffix);
    var r5 := "." + r6;
    AppendAssoc(l4, ".", r6);
    var r4 := d + r5;
    AppendAssoc(l3, d, r5);
    var r3 := "." + r4;
    AppendAssoc(l2, ".", r4);
    var r2 := m + r3;
    AppendAssoc(l1, m, r3);
    var r1 := "." + r2;
    AppendAssoc(y, ".", r2);
    assert l6 + suffix == y + r1;
  }

  /** A rendered version with non-negative groups determines its groups and its maturity. */
  lemma RenderInjective(g1: CalendarVersion, m1: Maturity, g2: CalendarVersion, m2: Maturity)
    requires g1.year >= 0 && g1.month >= 0 && g1.day >= 0 && g1.minor >= 0
    requires g2.year >= 0 && g2.month >= 0 && g2.day >= 0 && g2.minor >= 0
    requires Render(g1) + MaturitySuffix(m1) == Render(g2) + MaturitySuffix(m2)
    ensures g1 == g2 && m1 == m2
  {
    var s1, s2 := MaturitySuffix(m1), MaturitySuffix(m2);
    RenderNested(g1, s1);
    RenderNested(g2, s2);
    var e1, e2 := NatToStr(g1.minor) + s1, NatToStr(g2.minor) + s2;
    var d1, d2 := NatToStr(g1.day) + ("." + e1), NatToStr(g2.day) + ("." + e2);
    var c1, c2 := NatToStr(g1.month) + ("." + d1), NatToStr(g2.month) + ("." + d2);
    PeelNumeral(g1.year, "." + c1, g2.year, "." + c2);
    assert c1 == ("." + c1)[1..] == ("." + c2)[1..] == c2;
    PeelNumeral(g1.month, "." + d1, g2.month, "." + d2);
    assert d1 == ("." + d1)[1..] == ("." + d2)[1..] == d2;
    PeelNumeral(g1.day, "." + e1, g2.day, "." + e2);
    assert e1 == ("." + e1)[1..] == ("." + e2)[1..] == e2;
    PeelNumeral(g1.minor, s1, g2.minor, s2);
  }

  /** Distinct ten-digit releases, or distinct maturities, never share a Composer version. */
  lemma ConvertInjective(v1: PluginVersion, v2: PluginVersion)
    requires IsTenDigit(v1.version) && IsTenDigit(v2.version)
    ensures ConvertMoodleVersion(v1) == ConvertMoodleVersion(v2) <==>
              v1.version == v2.version && v1.maturity == v2.maturity
  {
    TenDigitGroups(v1.version);
    TenDigitGroups(v2.version);
    if ConvertMoodleVersion(v1) == ConvertMoodleVersion(v2) {
      RenderInjective(DigitGroups(IntToStr(v1.version)), v1.maturity, DigitGroups(IntToStr(v2.version)), v2.maturity);
    }
  }
}
