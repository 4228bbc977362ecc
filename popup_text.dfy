/**
 * The popup texts of the user marker and of the fallback marker, and the
 * rounding and number rendering they rely on (Math.round and a template
 * literal's rendering of an integer-valued number).
 */
module PopupText {
  import opened Wrappers

  /**
   * Math.round: the nearest integer, with halves rounded toward +infinity.
   * The ensures characterises the result uniquely.
   */
  function Round(x: real): (r: int)
    ensures r as real - 0.5 <= x < r as real + 0.5
  {
    (x + 0.5).Floor
  }

  predicate IsDigit(ch: char) {
    '0' <= ch <= '9'
  }

  predicate AllDigits(s: string) {
    forall i :: 0 <= i < |s| ==> IsDigit(s[i])
  }

  function DigitChar(d: nat): (ch: char)
    requires d < 10
    ensures IsDigit(ch) && ch as int - '0' as int == d
  {
    ('0' as int + d) as char
  }

  function DigitValue(ch: char): nat
    requires IsDigit(ch)
  {
    ch as int - '0' as int
  }

  /** Decimal rendering of a natural number, without leading zeros. */
  function NatToDecimal(n: nat): (s: string)
    ensures |s| >= 1 && AllDigits(s)
    ensures s[0] == '0' <==> n == 0
    ensures n < 10 <==> |s| == 1
    decreases n
  {
    if n < 10 then [DigitChar(n)] else NatToDecimal(n / 10) + [DigitChar(n % 10)]
  }

  /** The value a string of decimal digits denotes. */
  function DecimalValue(s: string): nat
    requires AllDigits(s)
    decreases |s|
  {
    if s == [] then 0 else 10 * DecimalValue(s[..|s| - 1]) + DigitValue(s[|s| - 1])
  }

  lemma {:induction false} DecimalRoundTrip(n: nat)
    ensures DecimalValue(NatToDecimal(n)) == n
  {
    if n >= 10 {
      DecimalRoundTrip(n / 10);
      var s := NatToDecimal(n / 10) + [DigitChar(n % 10)];
      assert s[..|s| - 1] == NatToDecimal(n / 10);
    }
  }

  /**
   * How a template literal renders an integer-valued number whose
   * magnitude is below 10^21 (larger ones switch to exponent form, which
   * no accuracy the component displays reaches): an optional minus sign,
   * then decimal digits.
   */
  function IntToText(i: int): (s: string)
    ensures |s| >= 1
    ensures i < 0 ==> s[0] == '-' && |s| >= 2 && AllDigits(s[1..])
    ensures i >= 0 ==> AllDigits(s)
  {
    if i < 0 then "-" + NatToDecimal(-i) else NatToDecimal(i)
  }

  /** Reads back what IntToText writes: an optional minus sign and digits. */
  function TextToInt(s: string): Option<int> {
    if |s| >= 2 && s[0] == '-' && AllDigits(s[1..]) then Some(-(DecimalValue(s[1..]) as int))
    else if |s| >= 1 && AllDigits(s) then Some(DecimalValue(s))
    else None
  }

  lemma IntTextRoundTrip(i: int)
    ensures TextToInt(IntToText(i)) == Some(i)
  {
    var t := IntToText(i);
    if i < 0 {
      assert t[1..] == NatToDecimal(-i);
      DecimalRoundTrip(-i);
    } else {
      DecimalRoundTrip(i);
    }
  }

  const YOU_PREFIX: string := "Tú (±"
  const YOU_SUFFIX: string := "m)"

  /** The user marker's popup: `Tú (±<rounded accuracy>m)`. */
  function YouLabel(accuracy: real): (s: string)
    ensures |s| > |YOU_PREFIX| + |YOU_SUFFIX|
    ensures s[..|YOU_PREFIX|] == YOU_PREFIX && s[|s| - |YOU_SUFFIX|..] == YOU_SUFFIX
  {
    YOU_PREFIX + IntToText(Round(accuracy)) + YOU_SUFFIX
  }

  /** The fallback marker's popup. */
  const FALLBACK_TEXT: string := "No se pudo obtener la ubicación precisa."

  /** Reads the rounded accuracy back out of a user-marker popup. */
  function ParseYouLabel(s: string): Option<int> {
    if |s| >= |YOU_PREFIX| + |YOU_SUFFIX| && s[..|YOU_PREFIX|] == YOU_PREFIX
       && s[|s| - |YOU_SUFFIX|..] == YOU_SUFFIX
    then TextToInt(s[|YOU_PREFIX|..|s| - |YOU_SUFFIX|])
    else None
  }

  /** The popup shows exactly the rounded accuracy. */
  lemma YouLabelShowsRoundedAccuracy(accuracy: real)
    ensures ParseYouLabel(YouLabel(accuracy)) == Some(Round(accuracy))
  {
    var s := YouLabel(accuracy);
    var mid := IntToText(Round(accuracy));
    assert s[..|YOU_PREFIX|] == YOU_PREFIX;
    assert s[|s| - |YOU_SUFFIX|..] == YOU_SUFFIX;
    assert s[|YOU_PREFIX|..|s| - |YOU_SUFFIX|] == mid;
    IntTextRoundTrip(Round(accuracy));
  }

  /** Two fixes get the same popup exactly when their accuracies round alike. */
  lemma YouLabelSameIffSameRounding(a: real, b: real)
    ensures YouLabel(a) == YouLabel(b) <==> Round(a) == Round(b)
  {
    if YouLabel(a) == YouLabel(b) {
      YouLabelShowsRoundedAccuracy(a);
      YouLabelShowsRoundedAccuracy(b);
    }
  }

  /** The fallback popup can never be mistaken for a user-marker popup. */
  lemma FallbackTextIsNoYouLabel(accuracy: real)
    ensures ParseYouLabel(FALLBACK_TEXT) == None
    ensures FALLBACK_TEXT != YouLabel(accuracy)
  {
  }
}
