/** The number rendering both monitors rely on: `math.Round` (half away from zero),
    `strconv.FormatUint(n, 10)` and `strconv.FormatFloat(x, 'f', digits, 64)` for a value
    that `math.Round(v*10)/10` has made a whole number of tenths. Values are exact reals. */
module Decimal {
  import opened Common

  predicate IsDigit(c: char) {
    '0' <= c <= '9'
  }

  predicate IsDigits(s: string) {
    forall i :: 0 <= i < |s| ==> IsDigit(s[i])
  }

  function DigitValue(c: char): (d: nat)
    requires IsDigit(c)
    ensures d < 10
  {
    c as int - '0' as int
  }

  function DigitChar(d: nat): (c: char)
    requires d < 10
    ensures IsDigit(c) && DigitValue(c) == d
  {
    ('0' as int + d) as char
  }

  /** `strconv.FormatUint(n, 10)`: the decimal digits of `n`, most significant first. */
  function FormatUint(n: nat): (s: string)
    ensures 1 <= |s| && IsDigits(s)
    ensures s[0] == '0' ==> n == 0
    decreases n
  {
    if n < 10 then [DigitChar(n)] else FormatUint(n / 10) + [DigitChar(n % 10)]
  }

  /** The number a string of decimal digits denotes. */
  function DigitsValue(s: string): nat
    requires IsDigits(s)
  {
    if s == [] then 0 else DigitsValue(s[..|s| - 1]) * 10 + DigitValue(s[|s| - 1])
  }

  /** Reading the rendering back gives the number that was rendered. */
  lemma {:induction false} FormatUintRoundTrip(n: nat)
    ensures DigitsValue(FormatUint(n)) == n
    decreases n
  {
    if n >= 10 {
      var s := FormatUint(n);
      assert s[..|s| - 1] == FormatUint(n / 10);
      FormatUintRoundTrip(n / 10);
    }
  }

  /** Distinct counters are published as distinct strings. */
  lemma FormatUintInjective(m: nat, n: nat)
    requires FormatUint(m) == FormatUint(n)
    ensures m == n
  {
    FormatUintRoundTrip(m);
    FormatUintRoundTrip(n);
  }

  /** `math.Round(x)`: the nearest integer, a half rounded away from zero. */
  function RoundHalfAwayFromZero(x: real): (r: int)
    ensures x - 0.5 <= r as real <= x + 0.5
    ensures x >= 0.0 ==> x - 0.5 < r as real
    ensures x < 0.0 ==> r as real < x + 0.5
  {
    if x >= 0.0 then (x + 0.5).Floor else -((0.5 - x).Floor)
  }

  /** The three facts above single out one integer, so they specify `math.Round` completely. */
  lemma RoundingIsUnique(x: real, n: int)
    requires x - 0.5 <= n as real <= x + 0.5
    requires x >= 0.0 ==> x - 0.5 < n as real
    requires x < 0.0 ==> n as real < x + 0.5
    ensures n == RoundHalfAwayFromZero(x)
  {
    var r := RoundHalfAwayFromZero(x);
    if x >= 0.0 {
      assert x - 0.5 < r as real <= x + 0.5;
      assert x - 0.5 < n as real <= x + 0.5;
    } else {
      assert x - 0.5 <= r as real < x + 0.5;
      assert x - 0.5 <= n as real < x + 0.5;
    }
  }

  /** `math.Round(v*10)` as an integer count of tenths: `math.Round(v*10)/10` is this count over ten. */
  function RoundTenths(v: real): int {
    RoundHalfAwayFromZero(v * 10.0)
  }

  /** Rounding an already rounded value changes nothing. */
  lemma RoundTenthsIdempotent(v: real)
    ensures RoundTenths(RoundTenths(v) as real / 10.0) == RoundTenths(v)
  {
    var k := RoundTenths(v);
    assert (k as real / 10.0) * 10.0 == k as real;
    RoundingIsUnique(k as real, k);
  }

  function Zeros(n: nat): (s: string)
    ensures |s| == n && forall i :: 0 <= i < n ==> s[i] == '0'
  {
    if n == 0 then "" else Zeros(n - 1) + "0"
  }

  /** The rendering of a non-negative count `m` of tenths with `digits` fractional digits:
      the integer part, a point, the tenths digit and `digits - 1` zeros. */
  function UnsignedTenths(m: nat, digits: nat): string
    requires digits >= 1
  {
    FormatUint(m / 10) + "." + [DigitChar(m % 10)] + Zeros(digits - 1)
  }

  /** `strconv.FormatFloat(k/10, 'f', digits, 64)` for a whole number `k` of tenths:
      a minus sign for a negative value, then the rendering of its magnitude. */
  function FormatTenths(k: int, digits: nat): string
    requires digits >= 1
  {
    if k < 0 then "-" + UnsignedTenths(-k, digits) else UnsignedTenths(k, digits)
  }

  /** Reads an unsigned rendering with `digits` fractional digits back into its count of tenths. */
  function ParseUnsignedTenths(body: string, digits: nat): Option<nat>
    requires digits >= 1
  {
    if |body| < digits + 2 then None
    else
      var dot := |body| - digits - 1;
      var whole := body[..dot];
      var frac := body[dot + 1..];
      if body[dot] == '.' && IsDigits(whole) && IsDigits(frac) && frac[1..] == Zeros(digits - 1) then
        Some(DigitsValue(whole) * 10 + DigitValue(frac[0]))
      else
        None
  }

  /** Reads a rendering with `digits` fractional digits back into its count of tenths. */
  function ParseTenths(s: string, digits: nat): Option<int>
    requires digits >= 1
  {
    if |s| > 0 && s[0] == '-' then
      match ParseUnsignedTenths(s[1..], digits)
      case Some(m) => Some(-(m as int))
      case None => None
    else
      ParseUnsignedTenths(s, digits)
  }

  lemma UnsignedTenthsRoundTrip(m: nat, digits: nat)
    requires digits >= 1
    ensures ParseUnsignedTenths(UnsignedTenths(m, digits), digits) == Some(m)
    ensures IsDigit(UnsignedTenths(m, digits)[0])
  {
    var u := FormatUint(m / 10);
    var frac := [DigitChar(m % 10)] + Zeros(digits - 1);
    var body := UnsignedTenths(m, digits);
    assert body == u + "." + frac;
    var dot := |body| - digits - 1;
    assert dot == |u|;
    assert body[..dot] == u;
    assert body[dot] == '.';
    assert body[dot + 1..] == frac;
    assert frac[1..] == Zeros(digits - 1);
    assert IsDigits(frac);
    FormatUintRoundTrip(m / 10);
    assert body[0] == u[0];
  }

  /** A rendered value reads back as exactly the tenths that were rendered. */
  lemma FormatTenthsRoundTrip(k: int, digits: nat)
    requires digits >= 1
    ensures ParseTenths(FormatTenths(k, digits), digits) == Some(k)
  {
    if k < 0 {
      UnsignedTenthsRoundTrip(-k, digits);
      assert ("-" + UnsignedTenths(-k, digits))[1..] == UnsignedTenths(-k, digits);
    } else {
      UnsignedTenthsRoundTrip(k, digits);
    }
  }

  /** The averaging metric renders two fractional digits and the `main.go` monitor one:
      the same rounded value reaches the broker as "23.10" from the first and "23.1" from the second. */
  lemma PrecisionDiffers(k: int)
    ensures FormatTenths(k, 2) == FormatTenths(k, 1) + "0"
    ensures FormatTenths(k, 2) != FormatTenths(k, 1)
  {
    assert Zeros(1) == "0";
    var m: nat := if k < 0 then -k else k;
    assert UnsignedTenths(m, 2) == UnsignedTenths(m, 1) + "0";
    assert |FormatTenths(k, 2)| == |FormatTenths(k, 1)| + 1;
  }
}
