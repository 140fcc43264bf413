/**
 * The few pieces of PHP's runtime the catalog code leans on: decoded JSON scalars,
 * `intval`, `strval`, `(string)` of an int, `substr`, `empty`, and the abstract
 * `DateTimeImmutable("@<epoch>")` conversion.
 */
module PhpRuntime {
  import opened Exceptions

  /** A scalar property of an object produced by `json_decode`; an absent property reads as `JNull`. */
  datatype Scalar = JNull | JInt(i: int) | JStr(s: string)

  /** An instant in UTC, in seconds since the Unix epoch. */
  type Instant = int

  /**
   * `new DateTimeImmutable($text, new DateTimeZone('UTC'))`: the instant the text denotes,
   * or `None` where the constructor throws. Date parsing is a library call and stays abstract.
   */
  type DateTimeParser = string -> Option<Instant>

  predicate IsDigit(c: char) { '0' <= c <= '9' }

  predicate AllDigits(s: string) { forall i :: 0 <= i < |s| ==> IsDigit(s[i]) }

  function DigitChar(d: nat): (c: char)
    requires d < 10
    ensures IsDigit(c)
  {
    (d + '0' as int) as char
  }

  function DigitValue(c: char): (d: nat)
    requires IsDigit(c)
    ensures d < 10
  {
    c as int - '0' as int
  }

  function Pow10(k: nat): (p: nat)
    ensures p >= 1
  {
    if k == 0 then 1 else 10 * Pow10(k - 1)
  }

  /** The number a string of decimal digits denotes, leading zeros allowed. */
  function DigitsValue(s: string): nat
    requires AllDigits(s)
  {
    if s == [] then 0 else DigitsValue(s[..|s| - 1]) * 10 + DigitValue(s[|s| - 1])
  }

  /** The decimal numeral of a natural number, without leading zeros. */
  function NatToStr(n: nat): (s: string)
    ensures |s| >= 1 && AllDigits(s) && DigitsValue(s) == n
    ensures s[0] == '0' ==> s == "0"
  {
    if n < 10 then [DigitChar(n)]
    else
      var s := NatToStr(n / 10) + [DigitChar(n % 10)];
      assert s[..|s| - 1] == NatToStr(n / 10);
      s
  }

  /** PHP's `(string)` of an int: a minus sign for negative values, then the decimal numeral. */
  function IntToStr(i: int): string
  {
    if i < 0 then "-" + NatToStr(-i) else NatToStr(i)
  }

  /** The whitespace PHP skips before a number: space, \t, \n, \r, \v, \f. */
  predicate IsSpace(c: char)
  {
    c == ' ' || c == '\t' || c == '\n' || c == '\r' || c as int == 11 || c as int == 12
  }

  function TrimLeadingSpace(s: string): string
  {
    if s != [] && IsSpace(s[0]) then TrimLeadingSpace(s[1..]) else s
  }

  /** The longest prefix of `s` made of digits. */
  function DigitPrefix(s: string): (p: string)
    ensures AllDigits(p)
  {
    if s != [] && IsDigit(s[0]) then [s[0]] + DigitPrefix(s[1..]) else []
  }

  /** PHP's `intval` of a string: whitespace, an optional sign and the digits that follow; 0 without digits. */
  function IntVal(s: string): int
  {
    var t := TrimLeadingSpace(s);
    if t != [] && t[0] == '-' then -(DigitsValue(DigitPrefix(t[1..])) as int)
    else if t != [] && t[0] == '+' then DigitsValue(DigitPrefix(t[1..]))
    else DigitsValue(DigitPrefix(t))
  }

  /** PHP's `intval` of a decoded JSON scalar (`intval(null)` is 0). */
  function IntValOf(v: Scalar): int
  {
    match v
    case JNull => 0
    case JInt(i) => i
    case JStr(s) => IntVal(s)
  }

  /** PHP's `strval`, which is also what string interpolation gives (`strval(null)` is ""). */
  function StrValOf(v: Scalar): string
  {
    match v
    case JNull => ""
    case JInt(i) => IntToStr(i)
    case JStr(s) => s
  }

  /** PHP's `empty` of a string: only "" and "0" are empty. */
  predicate IsEmpty(s: string) { s == "" || s == "0" }

  /** PHP's `empty` of a `?string`. */
  predicate IsEmptyOrNull(s: Option<string>) { s.None? || IsEmpty(s.value) }

  /**
   * PHP 8's `substr($s, $offset, $length)` for non-negative offset and length: the
   * part of `s` from `offset`, at most `length` characters, and "" past the end.
   */
  function Substr(s: string, offset: nat, length: nat): (r: string)
    ensures offset >= |s| ==> r == ""
    ensures offset + length <= |s| ==> r == s[offset..offset + length]
    ensures offset < |s| < offset + length ==> r == s[offset..]
  {
    if offset >= |s| then ""
    else s[offset..if offset + length <= |s| then offset + length else |s|]
  }

  // ---------------------------------------------------------------------------
  // Lemmas about numerals

  lemma AllDigitsConcat(a: string, b: string)
    requires AllDigits(a) && AllDigits(b)
    ensures AllDigits(a + b)
  {
    forall i | 0 <= i < |a + b| ensures IsDigit((a + b)[i]) {
      if i >= |a| { assert (a + b)[i] == b[i - |a|]; }
    }
  }

  lemma ShiftDigit(x: int, p: int, y: int, d: int)
    ensures (x * p + y) * 10 + d == x * (10 * p) + (y * 10 + d)
  {
    assert (x * p) * 10 == x * (10 * p);
  }

  /** Appending digits shifts the value by a power of ten. */
  lemma {:induction false} DigitsValueAppend(a: string, b: string)
    requires AllDigits(a) && AllDigits(b)
    ensures AllDigits(a + b)
    ensures DigitsValue(a + b) == DigitsValue(a) * Pow10(|b|) + DigitsValue(b)
  {
    AllDigitsConcat(a, b);
    if b == [] {
      assert a + b == a;
    } else {
      var b', c := b[..|b| - 1], b[|b| - 1];
      assert AllDigits(b');
      AllDigitsConcat(a, b');
      assert (a + b)[..|a + b| - 1] == a + b';
      assert (a + b)[|a + b| - 1] == c;
      DigitsValueAppend(a, b');
      assert DigitsValue(a + b) == DigitsValue(a + b') * 10 + DigitValue(c);
      assert DigitsValue(b) == DigitsValue(b') * 10 + DigitValue(c);
      assert Pow10(|b|) == 10 * Pow10(|b'|);
      ShiftDigit(DigitsValue(a), Pow10(|b'|), DigitsValue(b'), DigitValue(c));
    }
  }

  /** A string of k digits denotes less than 10^k. */
  lemma {:induction false} DigitsValueBound(s: string)
    requires AllDigits(s)
    ensures DigitsValue(s) < Pow10(|s|)
  {
    if s != [] {
      DigitsValueBound(s[..|s| - 1]);
    }
  }

  lemma {:induction false} DigitPrefixOfDigits(s: string)
    requires AllDigits(s)
    ensures DigitPrefix(s) == s
  {
    if s != [] {
      DigitPrefixOfDigits(s[1..]);
    }
  }

  /** `intval` reads back a plain digit string as the number it denotes. */
  lemma IntValOfDigits(s: string)
    requires AllDigits(s)
    ensures IntVal(s) == DigitsValue(s)
  {
    DigitPrefixOfDigits(s);
    if s != [] { assert IsDigit(s[0]); }
  }

  /** `intval((string) $i) === $i`: the decimal numeral of an int reads back as that int. */
  lemma IntValOfIntToStr(i: int)
    ensures IntVal(IntToStr(i)) == i
  {
    if i < 0 {
      var t := "-" + NatToStr(-i);
      assert TrimLeadingSpace(t) == t;
      assert t[1..] == NatToStr(-i);
      DigitPrefixOfDigits(NatToStr(-i));
    } else {
      IntValOfDigits(NatToStr(i));
    }
  }

  /** The numeral of a number in [10^k, 10^(k+1)) has k + 1 digits. */
  lemma {:induction false} NatToStrLength(n: nat, k: nat)
    requires Pow10(k) <= n < Pow10(k + 1)
    ensures |NatToStr(n)| == k + 1
  {
    if k > 0 {
      NatToStrLength(n / 10, k - 1);
    }
  }
}
