/** The one-time passcode of the password-reset flow: `generateOTP`, which
    renders an integer in [100000, 999999] as a decimal string, and the
    one-hour validity window checked when the code is redeemed. */
module Otp {
  import opened Wrappers

  /** The smallest code, and the number of codes `generateOTP` can draw. */
  const OTP_MIN: nat := 100000
  const OTP_RANGE: nat := 900000
  /** Validity of a code, in milliseconds (one hour). */
  const OTP_VALIDITY_MS: nat := 3600000

  predicate IsDigit(c: char) {
    '0' <= c <= '9'
  }

  predicate IsDigits(s: string) {
    forall i | 0 <= i < |s| :: IsDigit(s[i])
  }

  function DigitChar(d: nat): char
    requires d < 10
  {
    ('0' as int + d) as char
  }

  function DigitValue(c: char): nat
    requires IsDigit(c)
  {
    c as int - '0' as int
  }

  function Pow10(k: nat): nat {
    if k == 0 then 1 else 10 * Pow10(k - 1)
  }

  /** `Number.prototype.toString()` of a non-negative integer: decimal
      digits, with no leading zero unless the number is 0. */
  function DecimalString(n: nat): (s: string)
    ensures |s| >= 1 && IsDigits(s)
    ensures |s| > 1 ==> s[0] != '0'
  {
    if n < 10 then [DigitChar(n)] else DecimalString(n / 10) + [DigitChar(n % 10)]
  }

  /** The value of a string of decimal digits. */
  function ParseDecimal(s: string): nat
    requires IsDigits(s)
  {
    if s == [] then 0 else ParseDecimal(s[..|s| - 1]) * 10 + DigitValue(s[|s| - 1])
  }

  /** Reading back the decimal rendering of `n` gives `n`. */
  lemma {:induction false} ParseDecimalString(n: nat)
    ensures ParseDecimal(DecimalString(n)) == n
  {
    if n >= 10 {
      var s := DecimalString(n);
      assert s[..|s| - 1] == DecimalString(n / 10);
      ParseDecimalString(n / 10);
    }
  }

  /** A digit string with no leading zero is the rendering of its value. */
  lemma {:induction false} DecimalStringParse(s: string)
    requires |s| >= 1 && IsDigits(s) && s[0] != '0'
    ensures DecimalString(ParseDecimal(s)) == s
  {
    if |s| > 1 {
      var p := s[..|s| - 1];
      assert p[0] == s[0];
      LeadingDigitBound(p);
      DecimalStringParse(p);
      var n := ParseDecimal(s);
      assert n / 10 == ParseDecimal(p) && n % 10 == DigitValue(s[|s| - 1]);
      assert s == p + [s[|s| - 1]];
    }
  }

  /** A digit string of length k with no leading zero has value at least 10^(k-1). */
  lemma {:induction false} LeadingDigitBound(s: string)
    requires |s| >= 1 && IsDigits(s) && s[0] != '0'
    ensures ParseDecimal(s) >= Pow10(|s| - 1)
  {
    if |s| > 1 {
      var p := s[..|s| - 1];
      assert p[0] == s[0];
      LeadingDigitBound(p);
    }
  }

  /** A string of k digits has value below 10^k. */
  lemma {:induction false} DigitsUpperBound(s: string)
    requires IsDigits(s)
    ensures ParseDecimal(s) < Pow10(|s|)
  {
    if s != [] {
      DigitsUpperBound(s[..|s| - 1]);
    }
  }

  /** A number in [10^(k-1), 10^k) has exactly k decimal digits. */
  lemma {:induction false} DecimalLength(n: nat, k: nat)
    requires 1 <= k && Pow10(k - 1) <= n < Pow10(k)
    ensures |DecimalString(n)| == k
  {
    if k > 1 {
      DecimalLength(n / 10, k - 1);
    }
  }

  /** A well-formed passcode: six decimal digits, the first not zero. */
  predicate IsOtpCode(s: string) {
    |s| == 6 && IsDigits(s) && s[0] != '0'
  }

  /** `generateOTP`: `Math.floor(100000 + Math.random() * 900000).toString()`.
      `draw` stands for `Math.floor(Math.random() * 900000)`, an integer in
      [0, 900000); the floor of 100000 plus it is 100000 + draw. */
  function GenerateOtp(draw: nat): (code: string)
    requires draw < OTP_RANGE
    ensures IsOtpCode(code)
    ensures ParseDecimal(code) == OTP_MIN + draw
    ensures 100000 <= ParseDecimal(code) <= 999999
  {
    assert Pow10(5) == OTP_MIN && Pow10(6) == 1000000;
    DecimalLength(OTP_MIN + draw, 6);
    ParseDecimalString(OTP_MIN + draw);
    DecimalString(OTP_MIN + draw)
  }

  /** The draws and the six-digit codes are in one-to-one correspondence: every
      well-formed code comes from exactly one draw, so a uniform draw gives a
      uniform code. */
  lemma OtpCodesMatchDraws(code: string, d1: nat, d2: nat)
    requires d1 < OTP_RANGE && d2 < OTP_RANGE
    ensures GenerateOtp(d1) == GenerateOtp(d2) ==> d1 == d2
    ensures IsOtpCode(code) ==> exists d: nat :: d < OTP_RANGE && GenerateOtp(d) == code
  {
    if IsOtpCode(code) {
      DecimalStringParse(code);
      LeadingDigitBound(code);
      DigitsUpperBound(code);
      assert Pow10(5) == OTP_MIN && Pow10(6) == 1000000;
      var d: nat := ParseDecimal(code) - OTP_MIN;
      assert GenerateOtp(d) == code;
    }
  }

  /** `Date.now() + 3600000` */
  function OtpExpiry(now: nat): (expiry: nat)
    ensures expiry > now
  {
    now + OTP_VALIDITY_MS
  }

  /** `user.otpExpiry && Date.now() > user.otpExpiry`: a stored expiry that
      lies strictly before now. */
  predicate Expired(expiry: Option<int>, now: nat) {
    expiry.Some? && now > expiry.value
  }

  /** A code issued at `issuedAt` is still valid at every instant up to and
      including `issuedAt + 3600000` ms, and expired at every later one. */
  lemma ValidityWindow(issuedAt: nat, now: nat)
    ensures !Expired(Some(OtpExpiry(issuedAt)), now) <==> now <= issuedAt + OTP_VALIDITY_MS
  {
  }
}
