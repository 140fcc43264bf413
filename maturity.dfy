/** Moodle's MATURITY_* levels and their wire codes (src/Moodle/MoodlePluginMaturity.php). */
module MoodlePluginMaturity {
  import opened Exceptions
  import opened PhpRuntime

  datatype Maturity = Alpha | Beta | RC | Stable

  /** The codes the catalog accepts, compared as exact strings. */
  predicate IsKnownCode(code: string)
  {
    code == "0" || code == "50" || code == "100" || code == "150" || code == "200"
  }

  /** Moodle's own MATURITY_* constant for a level; ALPHA also has the alternative code 0. */
  function Code(m: Maturity): (c: nat)
    ensures IsKnownCode(NatToStr(c))
  {
    match m
    case Alpha => 50
    case Beta => 100
    case RC => 150
    case Stable => 200
  }

  /**
   * The `match` over `strval($source)`: an exact-string lookup with no
   * normalisation; any other string is an InvalidArgumentException.
   */
  function FromCode(code: string): (r: Result<Maturity>)
    ensures r.Ok? <==> IsKnownCode(code)
    ensures r.Ok? ==> code == NatToStr(Code(r.value)) || (code == "0" && r.value == Alpha)
    ensures r.Err? ==> r.error == InvalidArgument("Unknown plugin maturity \"" + code + "\"")
  {
    if code == "0" || code == "50" then Ok(Alpha)
    else if code == "100" then Ok(Beta)
    else if code == "150" then Ok(RC)
    else if code == "200" then Ok(Stable)
    else Err(InvalidArgument("Unknown plugin maturity \"" + code + "\""))
  }

  /** `MoodlePluginMaturity::jsonDeserialize(int|string $source)`; `null` is not an `int|string`. */
  function JsonDeserialize(source: Scalar): (r: Result<Maturity>)
    requires !source.JNull?
    ensures r.Ok? <==> IsKnownCode(StrValOf(source))
    ensures r.Ok? ==> StrValOf(source) == NatToStr(Code(r.value)) || (StrValOf(source) == "0" && r.value == Alpha)
    ensures r.Err? ==> r.error == InvalidArgument("Unknown plugin maturity \"" + StrValOf(source) + "\"")
  {
    FromCode(StrValOf(source))
  }

  /** An int and its decimal string decode identically (200 and "200"). */
  lemma IntAndStringAgree(n: int)
    ensures JsonDeserialize(JInt(n)) == JsonDeserialize(JStr(IntToStr(n)))
  {
  }

  /** Every level is decoded from the numeral of its MATURITY_* constant, as an int or as a string. */
  lemma CodeRoundTrip(m: Maturity)
    ensures JsonDeserialize(JInt(Code(m))) == Ok(m)
    ensures JsonDeserialize(JStr(NatToStr(Code(m)))) == Ok(m)
  {
    var c := Code(m);
    assert IntToStr(c) == NatToStr(c);
    match m
    case Alpha => assert NatToStr(50) == "50";
    case Beta => assert NatToStr(100) == "100";
    case RC => assert NatToStr(150) == "150";
    case Stable => assert NatToStr(200) == "200";
  }

  /** The value `intval` gives each known code. */
  lemma KnownCodeValue(code: string)
    requires IsKnownCode(code)
    ensures var v := IntVal(code); v == 0 || v == 50 || v == 100 || v == 150 || v == 200
  {
    if code == "0" {
      assert IntToStr(0) == code;
      IntValOfIntToStr(0);
    } else if code == "50" {
      assert IntToStr(50) == code;
      IntValOfIntToStr(50);
    } else if code == "100" {
      assert IntToStr(100) == code;
      IntValOfIntToStr(100);
    } else if code == "150" {
      assert IntToStr(150) == code;
      IntValOfIntToStr(150);
    } else {
      assert IntToStr(200) == code;
      IntValOfIntToStr(200);
    }
  }

  /** An int code is accepted exactly when it is one of 0, 50, 100, 150 and 200. */
  lemma IntCodes(n: int)
    ensures JsonDeserialize(JInt(n)).Ok? <==> n == 0 || n == 50 || n == 100 || n == 150 || n == 200
  {
    if IsKnownCode(IntToStr(n)) {
      IntValOfIntToStr(n);
      KnownCodeValue(IntToStr(n));
    }
  }

  /** ALPHA has two codes, so decoding is not injective; every level is reachable. */
  lemma AlphaHasTwoCodes()
    ensures FromCode("0") == FromCode("50") == Ok(Alpha)
    ensures forall m: Maturity :: exists code :: FromCode(code) == Ok(m)
  {
    forall m: Maturity ensures exists code :: FromCode(code) == Ok(m) {
      CodeRoundTrip(m);
      assert FromCode(NatToStr(Code(m))) == Ok(m);
    }
  }

  /** Codes are compared as exact strings: padding or whitespace makes a code unknown. */
  lemma NoNormalisation()
    ensures FromCode("0200").Err? && FromCode(" 200").Err? && FromCode("200 ").Err? && FromCode("").Err?
  {
  }
}
