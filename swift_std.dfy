/**
 * The few pieces of Swift standard-library behaviour the app relies on:
 * `Int(_: String)` parsing, `/` and `%` on `Int` (which truncate toward zero,
 * unlike Dafny's Euclidean operators) and `Int(_: Double)` (truncation).
 */
module SwiftStd {
  import opened Wrappers

  const IntMin: int := -0x8000_0000_0000_0000
  const IntMax: int := 0x7FFF_FFFF_FFFF_FFFF

  predicate IsDigit(c: char) {
    '0' <= c <= '9'
  }

  predicate AllDigits(s: string) {
    forall i :: 0 <= i < |s| ==> IsDigit(s[i])
  }

  function Pow10(n: nat): (r: nat)
    ensures r >= 1
  {
    if n == 0 then 1 else 10 * Pow10(n - 1)
  }

  /** The value of a string of decimal digits, most significant first. */
  function DigitsValue(s: string): nat
    requires AllDigits(s)
  {
    if s == [] then 0 else 10 * DigitsValue(s[..|s| - 1]) + (s[|s| - 1] as int - '0' as int)
  }

  /** `n` written in decimal without leading zeros. */
  function Decimal(n: nat): string {
    var last := [(('0' as int) + n % 10) as char];
    if n < 10 then last else Decimal(n / 10) + last
  }

  /**
   * Swift's `Int(_ description: String)`: an optional `+` or `-` followed by
   * at least one ASCII digit, whose value fits in `Int`; anything else is nil.
   */
  function ParseInt(s: string): (r: Option<int>)
    ensures r.Some? ==> IntMin <= r.value <= IntMax
    ensures s == [] ==> r.None?
    ensures r.Some? ==> exists k :: 0 <= k < |s| && IsDigit(s[k])
    ensures s != [] && AllDigits(s) && DigitsValue(s) <= IntMax ==> r == Some(DigitsValue(s))
  {
    if s == [] then None
    else
      var body := if s[0] == '-' || s[0] == '+' then s[1..] else s;
      if body == [] || !AllDigits(body) then None
      else
        var v: int := if s[0] == '-' then -(DigitsValue(body) as int) else DigitsValue(body);
        if IntMin <= v <= IntMax then
          assert IsDigit(s[|s| - 1]);
          Some(v)
        else None
  }

  /** A digit string is worth less than ten to the power of its length. */
  lemma {:induction false} DigitsValueBound(s: string)
    requires AllDigits(s)
    ensures DigitsValue(s) < Pow10(|s|)
  {
    if s != [] {
      DigitsValueBound(s[..|s| - 1]);
    }
  }

  /** Writing a number in decimal and reading it back gives the number. */
  lemma {:induction false} DecimalRoundTrip(n: nat)
    ensures AllDigits(Decimal(n)) && Decimal(n) != []
    ensures DigitsValue(Decimal(n)) == n
  {
    var last := [(('0' as int) + n % 10) as char];
    if n >= 10 {
      DecimalRoundTrip(n / 10);
      var s := Decimal(n);
      assert s == Decimal(n / 10) + last;
      assert s[..|s| - 1] == Decimal(n / 10);
    }
  }

  /** `Int(String(n))` is `n` for every non-negative `Int`. */
  lemma ParseDecimal(n: nat)
    requires n <= IntMax
    ensures ParseInt(Decimal(n)) == Some(n)
  {
    DecimalRoundTrip(n);
  }

  /** A non-empty string of at most four digits always parses, to a value below 10000. */
  lemma ParseShortDigits(s: string)
    requires AllDigits(s) && 0 < |s| <= 4
    ensures ParseInt(s).Some? && 0 <= ParseInt(s).value <= 9999
  {
    DigitsValueBound(s);
    assert Pow10(|s|) <= Pow10(4) by {
      if |s| < 4 { Pow10Monotone(|s|, 4); }
    }
  }

  lemma {:induction false} Pow10Monotone(m: nat, n: nat)
    requires m <= n
    ensures Pow10(m) <= Pow10(n)
  {
    if m < n {
      Pow10Monotone(m, n - 1);
    }
  }

  /** Swift's `a / d` for a positive divisor: the quotient rounded toward zero. */
  function Quotient(a: int, d: int): (q: int)
    requires d > 0
    ensures a >= 0 ==> 0 <= d * q <= a < d * q + d
    ensures a < 0 ==> d * q - d < a <= d * q <= 0
  {
    if a >= 0 then
      EuclideanBounds(a, d);
      a / d
    else
      EuclideanBounds(-a, d);
      var q' := (-a) / d;
      assert d * (-q') == -(d * q');
      -q'
  }

  lemma EuclideanBounds(n: nat, d: int)
    requires d > 0
    ensures 0 <= d * (n / d) <= n < d * (n / d) + d
  {
    assert d * (n / d) + n % d == n;
  }

  /** Swift's `a % d` for a positive divisor: the remainder takes the sign of `a`. */
  function Remainder(a: int, d: int): (r: int)
    requires d > 0
    ensures d * Quotient(a, d) + r == a
    ensures a >= 0 ==> 0 <= r < d
    ensures a < 0 ==> -d < r <= 0
  {
    if a >= 0 then a % d else -((-a) % d)
  }

  /** Swift's `Int(x)` for a `Double`: the fractional part is dropped, rounding toward zero. */
  function Truncate(x: real): (n: int)
    ensures x >= 0.0 ==> 0 <= n && n as real <= x < n as real + 1.0
    ensures x < 0.0 ==> n <= 0 && n as real - 1.0 < x <= n as real
  {
    if x >= 0.0 then x.Floor else -((-x).Floor)
  }

  /** `String(format: "%02d", n)`: at least two digits, zero-padded, with a leading `-` for a negative value. */
  function Pad2(n: int): (r: string)
    ensures n >= 0 ==> AllDigits(r) && |r| >= 2 && DigitsValue(r) == n
    ensures 0 <= n < 100 ==> |r| == 2
  {
    if n < 0 then "-" + Decimal(-n)
    else
      DecimalRoundTrip(n);
      if n < 10 then
        LeadingZero(Decimal(n));
        "0" + Decimal(n)
      else
        assert n < 100 ==> Decimal(n) == Decimal(n / 10) + [(('0' as int) + n % 10) as char];
        Decimal(n)
  }

  /** A leading zero does not change a digit string's value. */
  lemma {:induction false} LeadingZero(s: string)
    requires AllDigits(s)
    ensures AllDigits("0" + s) && DigitsValue("0" + s) == DigitsValue(s)
  {
    if s != [] {
      LeadingZero(s[..|s| - 1]);
      assert ("0" + s)[..|s|] == "0" + s[..|s| - 1];
    }
  }
}
