/**
 * The code generator of index.js: a six-digit decimal OTP.
 *
 * The source draws `r` from `Math.random()` in [0, 1) and returns
 * `Math.floor(100000 + r * 900000).toString()`.  Here the draw is the
 * integer `k = Math.floor(100000 + r * 900000) - 100000`, which lies in
 * [0, 900000) for every double `r` in [0, 1); `toString` of a non-negative
 * integer below 10^21 is `DecimalString`, whose inverse is `DigitsValue`.
 */
module OtpCode {

  /** The exclusive upper bound of the random draw. */
  const DrawRange: nat := 900000
  /** The smallest code the generator produces. */
  const MinCode: nat := 100000
  /** The number of characters of every generated code. */
  const CodeLength: nat := 6

  predicate IsDigit(c: char) {
    '0' <= c <= '9'
  }

  predicate IsDigits(s: string) {
    forall i :: 0 <= i < |s| ==> IsDigit(s[i])
  }

  /** A well-formed OTP: six decimal digits without a leading zero. */
  predicate IsOtpCode(s: string) {
    |s| == CodeLength && IsDigits(s) && s[0] != '0'
  }

  function DigitChar(d: nat): (c: char)
    requires d < 10
    ensures IsDigit(c)
  {
    ['0', '1', '2', '3', '4', '5', '6', '7', '8', '9'][d]
  }

  function DigitValue(c: char): (d: nat)
    requires IsDigit(c)
    ensures d < 10 && DigitChar(d) == c
  {
    (c as int - '0' as int) as nat
  }

  function Pow10(e: nat): (r: nat)
    ensures r >= 1
  {
    if e == 0 then 1 else 10 * Pow10(e - 1)
  }

  /** The decimal text of `n`, as JavaScript's `Number.prototype.toString` writes an integer below 10^21. */
  function DecimalString(n: nat): (s: string)
    ensures |s| >= 1 && IsDigits(s)
  {
    if n < 10 then [DigitChar(n)] else DecimalString(n / 10) + [DigitChar(n % 10)]
  }

  /** The number a string of decimal digits denotes (the most significant digit first). */
  function DigitsValue(s: string): (n: nat)
    requires IsDigits(s)
  {
    if s == [] then 0 else DigitsValue(s[..|s| - 1]) * 10 + DigitValue(s[|s| - 1])
  }

  /** Reading back the decimal text of `n` gives `n`. */
  lemma {:induction false} DecimalStringValue(n: nat)
    ensures DigitsValue(DecimalString(n)) == n
  {
    if n >= 10 {
      var s := DecimalString(n);
      assert s[..|s| - 1] == DecimalString(n / 10);
      DecimalStringValue(n / 10);
    }
  }

  /** A digit string that does not start with '0' has a positive value. */
  lemma {:induction false} LeadingDigitPositive(s: string)
    requires IsDigits(s) && |s| >= 1 && s[0] != '0'
    ensures DigitsValue(s) >= Pow10(|s| - 1)
  {
    if |s| > 1 {
      var t := s[..|s| - 1];
      assert t[0] == s[0];
      LeadingDigitPositive(t);
    }
  }

  /** A digit string with no leading zero is its value's decimal text: the text is canonical. */
  lemma {:induction false} DigitsValueDecimal(s: string)
    requires IsDigits(s) && |s| >= 1 && (s[0] != '0' || |s| == 1)
    ensures DecimalString(DigitsValue(s)) == s
  {
    var t := s[..|s| - 1];
    var d := DigitValue(s[|s| - 1]);
    if |s| == 1 {
      assert DigitsValue(s) == d;
    } else {
      assert t[0] == s[0];
      LeadingDigitPositive(t);
      var v := DigitsValue(s);
      assert v == DigitsValue(t) * 10 + d;
      assert v / 10 == DigitsValue(t) && v % 10 == d;
      DigitsValueDecimal(t);
      assert s == t + [s[|s| - 1]];
    }
  }

  /** The decimal text of a positive number does not start with '0'. */
  lemma {:induction false} DecimalStringLeading(n: nat)
    requires n >= 1
    ensures DecimalString(n)[0] != '0'
  {
    if n >= 10 {
      DecimalStringLeading(n / 10);
    }
  }

  /** A number with exactly `e` digits has an `e`-character decimal text. */
  lemma {:induction false} DecimalStringLength(n: nat, e: nat)
    requires e >= 1 && Pow10(e - 1) <= n < Pow10(e)
    ensures |DecimalString(n)| == e
  {
    if e > 1 {
      assert Pow10(e - 1) == 10 * Pow10(e - 2);
      assert Pow10(e) == 10 * Pow10(e - 1);
      assert Pow10(e - 2) <= n / 10 < Pow10(e - 1);
      DecimalStringLength(n / 10, e - 1);
    }
  }

  /**
   * `generateOTP` for the draw `k`: the decimal text of `100000 + k`.  It is a
   * six-digit string whose value lies in [100000, 999999].
   */
  function GenerateOtp(k: nat): (code: string)
    requires k < DrawRange
    ensures IsOtpCode(code)
    ensures DigitsValue(code) == MinCode + k
    ensures MinCode <= DigitsValue(code) <= 999999
  {
    var n := MinCode + k;
    assert Pow10(5) == 100000 && Pow10(6) == 1000000;
    DecimalStringLength(n, 6);
    DecimalStringValue(n);
    var s := DecimalString(n);
    DecimalStringLeading(n);
    s
  }

  /** Different draws `k` give different codes, so however `k` is distributed, the code is distributed alike. */
  lemma GenerateOtpInjective(k1: nat, k2: nat)
    requires k1 < DrawRange && k2 < DrawRange
    ensures GenerateOtp(k1) == GenerateOtp(k2) <==> k1 == k2
  {
  }

  /** Every six-digit string without a leading zero is produced by exactly one draw. */
  lemma {:induction false} GenerateOtpOnto(code: string)
    requires IsOtpCode(code)
    ensures MinCode <= DigitsValue(code) < MinCode + DrawRange
    ensures GenerateOtp(DigitsValue(code) - MinCode) == code
  {
    LeadingDigitPositive(code);
    assert Pow10(5) == 100000 && Pow10(6) == 1000000;
    DigitsValueBound(code);
    DigitsValueDecimal(code);
  }

  /** A digit string of length `|s|` denotes a number below `10^|s|`. */
  lemma {:induction false} DigitsValueBound(s: string)
    requires IsDigits(s)
    ensures DigitsValue(s) < Pow10(|s|)
  {
    if s != [] {
      DigitsValueBound(s[..|s| - 1]);
    }
  }
}
