/**
 * Number semantics the TypeScript code relies on, over exact rationals:
 * `Math.round`, `Math.ceil`, `Number.prototype.toFixed(0)`,
 * `parseFloat(s) || 0` on digit text, `Number.prototype.toString(36)`,
 * and the wrap-around of the bitwise operators to 32-bit signed integers.
 */
module Numbers {
  import opened Text

  /** `Math.round`: the nearest integer, halves going up. */
  function Round(x: real): (r: int)
    ensures r as real - 0.5 <= x < r as real + 0.5
  {
    (x + 0.5).Floor
  }

  lemma RoundMonotone(x: real, y: real)
    requires x <= y
    ensures Round(x) <= Round(y)
  {
  }

  lemma RoundOfInt(n: int)
    ensures Round(n as real) == n
  {
  }

  /** `Math.ceil(n / p)` for a positive divisor `p`: the least `k` with `k * p >= n`. */
  function CeilDiv(n: nat, p: int): (k: nat)
    requires p > 0
    ensures k * p >= n
    ensures k == 0 || (k - 1) * p < n
  {
    var q, r := n / p, n % p;
    assert n == q * p + r;
    if r == 0 then q
    else
      assert (q + 1) * p == q * p + p;
      q + 1
  }

  predicate IsDigitString(s: string) {
    forall i :: 0 <= i < |s| ==> IsDigit(s[i])
  }

  function DigitOf(c: char): (d: nat)
    requires IsDigit(c)
    ensures d < 10
  {
    c as int - '0' as int
  }

  /** The value of a string of decimal digits (the empty string is 0). */
  function DigitsValue(s: string): nat
    requires IsDigitString(s)
  {
    if s == [] then 0 else 10 * DigitsValue(s[..|s| - 1]) + DigitOf(s[|s| - 1])
  }

  /** The longest prefix of `s` made of digits. */
  function LeadingDigits(s: string): (r: string)
    ensures IsDigitString(r) && StartsWith(s, r)
    ensures |r| < |s| ==> !IsDigit(s[|r|])
  {
    if s != [] && IsDigit(s[0]) then [s[0]] + LeadingDigits(s[1..]) else []
  }

  /** The value of the digits after a decimal point: "25" is 0.25. */
  function FractionValue(f: string): real
    requires IsDigitString(f)
  {
    if f == [] then 0.0 else (DigitOf(f[0]) as real + FractionValue(f[1..])) / 10.0
  }

  /**
   * `parseFloat(s) || 0`: after leading whitespace, an optional sign, then
   * integer digits and an optional '.' with fraction digits; the value of
   * that prefix, or 0 when it holds no digit at all (NaN is falsy, as is 0).
   */
  function ParseFloatOrZero(s: string): real
    decreases |s|
  {
    if s != [] && IsSpace(s[0]) then ParseFloatOrZero(s[1..])
    else if s != [] && s[0] == '-' then -UnsignedValueOrZero(s[1..])
    else if s != [] && s[0] == '+' then UnsignedValueOrZero(s[1..])
    else UnsignedValueOrZero(s)
  }

  /** The value of the unsigned number at the start of `u`, or 0 when it holds no digit. */
  function UnsignedValueOrZero(u: string): real {
    var intPart := LeadingDigits(u);
    var rest := u[|intPart|..];
    var fracPart := if rest != [] && rest[0] == '.' then LeadingDigits(rest[1..]) else "";
    DigitsValue(intPart) as real + FractionValue(fracPart)
  }

  lemma {:induction false} LeadingDigitsOfDigitString(s: string)
    requires IsDigitString(s)
    ensures LeadingDigits(s) == s
  {
    if s != [] {
      LeadingDigitsOfDigitString(s[1..]);
    }
  }

  /** On a string of digits, `parseFloat(s) || 0` is the number the digits spell. */
  lemma ParseOfDigitString(s: string)
    requires IsDigitString(s)
    ensures ParseFloatOrZero(s) == DigitsValue(s) as real
  {
    LeadingDigitsOfDigitString(s);
    assert s[|s|..] == [];
  }

  /** Text holding no digit at all reads as 0. */
  lemma {:induction false} ParseWithoutDigitsIsZero(s: string)
    requires forall i :: 0 <= i < |s| ==> !IsDigit(s[i])
    ensures ParseFloatOrZero(s) == 0.0
    decreases |s|
  {
    if s != [] && IsSpace(s[0]) {
      ParseWithoutDigitsIsZero(s[1..]);
    } else {
      var u := if s != [] && (s[0] == '-' || s[0] == '+') then s[1..] else s;
      assert LeadingDigits(u) == [];
      if u != [] && u[0] == '.' {
        assert LeadingDigits(u[1..]) == [];
      }
    }
  }

  /** A leading minus sign and a decimal fraction both count. */
  lemma ParseSignedFraction()
    ensures ParseFloatOrZero("-12.5") == -12.5
  {
    var s, u := "-12.5", "12.5";
    assert s[0] == '-' && !IsSpace(s[0]) && s[1..] == u;
    assert ParseFloatOrZero(s) == -UnsignedValueOrZero(u);
    assert LeadingDigits(u[2..]) == [];
    assert LeadingDigits(u) == "12";
    assert u[2..] == ".5" && ".5"[1..] == "5";
    assert LeadingDigits("5"[1..]) == [];
    assert LeadingDigits("5") == "5";
    assert DigitsValue("12") == 12;
    assert FractionValue("5") == 0.5;
  }

  /** Leading whitespace is skipped and text after the number is ignored. */
  lemma ParseSkipsSpaceAndSuffix()
    ensures ParseFloatOrZero(" 7kg") == 7.0
  {
    assert ParseFloatOrZero(" 7kg") == ParseFloatOrZero("7kg");
    assert LeadingDigits("7kg") == "7";
  }

  /** Letters alone, or a lone decimal point, read as 0. */
  lemma ParseOfNoDigitsExamples()
    ensures ParseFloatOrZero("abc") == 0.0
    ensures ParseFloatOrZero(".") == 0.0
  {
    ParseWithoutDigitsIsZero("abc");
    ParseWithoutDigitsIsZero(".");
  }

  function DecimalDigit(d: nat): (c: char)
    requires d < 10
    ensures IsDigit(c) && DigitOf(c) == d
  {
    ('0' as int + d) as char
  }

  /** The decimal rendering of a natural number, without leading zeros. */
  function NatToDecimal(n: nat): (r: string)
    ensures |r| >= 1 && IsDigitString(r)
    ensures |r| > 1 ==> r[0] != '0'
  {
    if n < 10 then [DecimalDigit(n)] else NatToDecimal(n / 10) + [DecimalDigit(n % 10)]
  }

  /** Reading back a decimal rendering gives the number. */
  lemma {:induction false} DecimalRoundTrip(n: nat)
    ensures DigitsValue(NatToDecimal(n)) == n
  {
    if n >= 10 {
      DecimalRoundTrip(n / 10);
      var r := NatToDecimal(n);
      assert r[..|r| - 1] == NatToDecimal(n / 10);
    }
  }

  /**
   * `x.toFixed(0)`: the magnitude rounded half away from zero, with a '-'
   * for negative `x` (so that -0.4 renders as "-0").
   */
  function ToFixed0(x: real): (r: string)
    ensures x >= 0.0 ==> IsDigitString(r) && DigitsValue(r) == Round(x)
  {
    if x < 0.0 then "-" + NatToDecimal(Round(-x))
    else DecimalRoundTrip(Round(x)); NatToDecimal(Round(x))
  }

  /** The number `toFixed(0)` rounds to: the nearest integer, halves away from zero. */
  function RoundHalfAway(x: real): (n: int)
    ensures n as real - 0.5 <= x <= n as real + 0.5
  {
    if x < 0.0 then -Round(-x) else Round(x)
  }

  /** Reading back the text of `toFixed(0)` with `parseFloat` gives the rounded number. */
  lemma ToFixed0ReadsBack(x: real)
    ensures ParseFloatOrZero(ToFixed0(x)) == RoundHalfAway(x) as real
  {
    var r := ToFixed0(x);
    if x < 0.0 {
      var digits := NatToDecimal(Round(-x));
      DecimalRoundTrip(Round(-x));
      ParseOfDigitString(digits);
      assert r[1..] == digits;
    } else {
      ParseOfDigitString(r);
    }
  }

  /**
   * `x.toFixed(1)`: the magnitude rounded to one decimal, half away from
   * zero, with a '-' for negative `x`.
   */
  function ToFixed1(x: real): (r: string)
    ensures |r| >= 3
  {
    var tenths := Round(if x < 0.0 then -x * 10.0 else x * 10.0);
    var body := NatToDecimal(tenths / 10) + "." + [DecimalDigit(tenths % 10)];
    if x < 0.0 then "-" + body else body
  }

  lemma ToFixed1Examples()
    ensures ToFixed1(14.5) == "14.5" && ToFixed1(10.0) == "10.0"
    ensures ToFixed1(5.0) == "5.0" && ToFixed1(0.0) == "0.0"
  {
    assert Round(145.0) == 145 && Round(100.0) == 100 && Round(50.0) == 50 && Round(0.0) == 0;
    assert NatToDecimal(14) == "14";
    assert NatToDecimal(10) == "10";
  }

  /** The quotient of two counts lies between 0 and the numerator, and within [0, 1] when the numerator is the smaller. */
  lemma QuotientBounds(n: nat, d: nat)
    requires d > 0
    ensures 0.0 <= (n as real) / (d as real) <= n as real
    ensures n <= d ==> (n as real) / (d as real) <= 1.0
  {
    var x, y := n as real, d as real;
    var q := x / y;
    QuotientNonNegative(x, y);
    assert q * y == x;
    NonNegativeProduct(q, y - 1.0);
    assert x - q == q * (y - 1.0);
    if n <= d {
      assert (1.0 - q) * y == y - x;
      FactorSign(1.0 - q, y);
    }
  }

  lemma FactorSign(a: real, b: real)
    requires b > 0.0 && a * b >= 0.0
    ensures a >= 0.0
  {
  }

  lemma QuotientNonNegative(x: real, y: real)
    requires x >= 0.0 && y > 0.0
    ensures x / y >= 0.0
  {
  }

  lemma NonNegativeProduct(a: real, b: real)
    requires a >= 0.0 && b >= 0.0
    ensures a * b >= 0.0
  {
  }

  lemma DivideProduct(b: real, f: real)
    requires b != 0.0
    ensures (b * f) / b == f
  {
  }

  /** A JavaScript quotient: a finite number, or NaN / Infinity after a division by zero. */
  datatype Quotient = Finite(value: real) | NotFinite

  /** `x / y * 100`. */
  function PercentOf(x: real, y: real): (q: Quotient)
    ensures y == 0.0 <==> q.NotFinite?
    ensures y != 0.0 ==> q.value * y == x * 100.0
  {
    if y == 0.0 then NotFinite else Finite(x / y * 100.0)
  }

  predicate IsBase36Char(c: char) {
    IsDigit(c) || IsLowerAscii(c)
  }

  function Base36Digit(d: nat): (c: char)
    requires d < 36
    ensures IsBase36Char(c)
  {
    if d < 10 then ('0' as int + d) as char else ('a' as int + d - 10) as char
  }

  function Base36DigitValue(c: char): (d: nat)
    requires IsBase36Char(c)
    ensures d < 36
  {
    if IsDigit(c) then c as int - '0' as int else c as int - 'a' as int + 10
  }

  /** `n.toString(36)` for a natural number. */
  function NatToBase36(n: nat): (r: string)
    ensures |r| >= 1
    ensures forall i :: 0 <= i < |r| ==> IsBase36Char(r[i])
  {
    if n < 36 then [Base36Digit(n)] else NatToBase36(n / 36) + [Base36Digit(n % 36)]
  }

  /** The value of a base-36 numeral (an independent reading of `NatToBase36`). */
  function Base36Value(s: string): nat
    requires forall i :: 0 <= i < |s| ==> IsBase36Char(s[i])
  {
    if s == [] then 0 else 36 * Base36Value(s[..|s| - 1]) + Base36DigitValue(s[|s| - 1])
  }

  /** The base-36 rendering loses nothing: reading it back gives the number. */
  lemma {:induction false} Base36RoundTrip(n: nat)
    ensures Base36Value(NatToBase36(n)) == n
  {
    var r := NatToBase36(n);
    if n < 36 {
      assert r[..|r| - 1] == [];
    } else {
      Base36RoundTrip(n / 36);
      assert r[..|r| - 1] == NatToBase36(n / 36);
    }
  }

  lemma Base36Injective(m: nat, n: nat)
    requires NatToBase36(m) == NatToBase36(n)
    ensures m == n
  {
    Base36RoundTrip(m);
    Base36RoundTrip(n);
  }

  const TwoTo31: int := 0x8000_0000
  const TwoTo32: int := 0x1_0000_0000

  predicate IsInt32(x: int) {
    -TwoTo31 <= x < TwoTo31
  }

  /** The ECMAScript ToInt32 conversion that every bitwise operator applies. */
  function ToInt32(x: int): (r: int)
    ensures IsInt32(r)
    ensures (x - r) % TwoTo32 == 0
    ensures IsInt32(x) ==> r == x
  {
    (x + TwoTo31) % TwoTo32 - TwoTo31
  }

  /** ToInt32 depends only on its argument modulo 2^32. */
  lemma ToInt32Congruent(x: int, y: int)
    requires (x - y) % TwoTo32 == 0
    ensures ToInt32(x) == ToInt32(y)
  {
    var k := (x - y) / TwoTo32;
    assert x == y + k * TwoTo32;
    assert (x + TwoTo31) % TwoTo32 == (y + TwoTo31 + k * TwoTo32) % TwoTo32;
    ModAddMultiple(y + TwoTo31, k);
  }

  lemma ModAddMultiple(a: int, k: int)
    ensures (a + k * TwoTo32) % TwoTo32 == a % TwoTo32
  {
    var q := a / TwoTo32;
    var r := a % TwoTo32;
    assert a + k * TwoTo32 == (q + k) * TwoTo32 + r;
  }
}
