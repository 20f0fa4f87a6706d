/**
 * `Color(hex:)` (Views/SplashView.swift): reading a hex colour string into
 * integer alpha, red, green and blue channels. The final conversion of each
 * channel to a `Double` between 0 and 1 is not part of this model.
 *
 * `UInt64` shifts and masks on the non-negative scanned value are written
 * as division and remainder by powers of two: `x >> k` is `x / 2^k`,
 * `x & 0xFF` is `x % 256` and `x & 0xF` is `x % 16`.
 */
module HexColor {

  datatype Argb = Argb(a: int, r: int, g: int, b: int)

  /** The alphanumerics the trimming keeps (ASCII letters and digits). */
  predicate IsAlphanumeric(c: char) {
    ('0' <= c <= '9') || ('a' <= c <= 'z') || ('A' <= c <= 'Z')
  }

  predicate IsHexDigit(c: char) {
    ('0' <= c <= '9') || ('a' <= c <= 'f') || ('A' <= c <= 'F')
  }

  predicate AllHex(s: string) {
    forall i :: 0 <= i < |s| ==> IsHexDigit(s[i])
  }

  function DigitValue(c: char): (v: nat)
    requires IsHexDigit(c)
    ensures v < 16
  {
    if '0' <= c <= '9' then c as int - '0' as int
    else if 'a' <= c <= 'f' then c as int - 'a' as int + 10
    else c as int - 'A' as int + 10
  }

  function Pow16(n: nat): (r: nat)
    ensures r >= 1
  {
    if n == 0 then 1 else 16 * Pow16(n - 1)
  }

  /** The value of a string of hex digits, most significant first. */
  function HexValue(s: string): nat
    requires AllHex(s)
  {
    if s == [] then 0 else 16 * HexValue(s[..|s| - 1]) + DigitValue(s[|s| - 1])
  }

  /** How many characters at the front of `s` are not letters or digits. */
  function LeadingJunk(s: string): (n: nat)
    ensures n <= |s|
    ensures forall k :: 0 <= k < n ==> !IsAlphanumeric(s[k])
    ensures n < |s| ==> IsAlphanumeric(s[n])
  {
    if s == [] || IsAlphanumeric(s[0]) then 0 else 1 + LeadingJunk(s[1..])
  }

  /** How many characters at the back of `s` are not letters or digits. */
  function TrailingJunk(s: string): (n: nat)
    ensures n <= |s|
    ensures forall k :: |s| - n <= k < |s| ==> !IsAlphanumeric(s[k])
    ensures n < |s| ==> IsAlphanumeric(s[|s| - 1 - n])
  {
    if s == [] || IsAlphanumeric(s[|s| - 1]) then 0 else 1 + TrailingJunk(s[..|s| - 1])
  }

  /**
   * `trimmingCharacters(in: .alphanumerics.inverted)`: the part of `s`
   * between the leading and the trailing characters that are not letters or
   * digits.
   */
  function Trimmed(s: string): (t: string)
    ensures |t| <= |s|
    ensures t != [] ==> IsAlphanumeric(t[0]) && IsAlphanumeric(t[|t| - 1])
    ensures s != [] && IsAlphanumeric(s[0]) && IsAlphanumeric(s[|s| - 1]) ==> t == s
  {
    var u := s[LeadingJunk(s)..];
    u[..|u| - TrailingJunk(u)]
  }

  /** Trimming removes only non-alphanumerics, and only from the two ends. */
  lemma TrimmedIsMiddle(s: string)
    ensures exists i, j :: 0 <= i <= j <= |s| && Trimmed(s) == s[i..j]
              && (forall k :: 0 <= k < i ==> !IsAlphanumeric(s[k]))
              && (forall k :: j <= k < |s| ==> !IsAlphanumeric(s[k]))
  {
    var i := LeadingJunk(s);
    var u := s[i..];
    var j := i + |u| - TrailingJunk(u);
    assert Trimmed(s) == s[i..j];
    assert forall k :: j <= k < |s| ==> s[k] == u[k - i];
  }

  /** `"#"` in front of hex digits is trimmed away: `"#FF6B9D"` reads as `"FF6B9D"`. */
  lemma TrimmedHash(digits: string)
    requires AllHex(digits) && digits != []
    ensures Trimmed("#" + digits) == digits
  {
    var s := "#" + digits;
    assert LeadingJunk(s) == 1 by {
      assert s[1..] == digits;
    }
    assert s[1..] == digits;
  }

  /** The number of hex digits at the front of `s`. */
  function HexRun(s: string): (n: nat)
    ensures n <= |s| && AllHex(s[..n])
    ensures n < |s| ==> !IsHexDigit(s[n])
  {
    if s == [] || !IsHexDigit(s[0]) then 0
    else
      var n := HexRun(s[1..]);
      assert s[..n + 1] == [s[0]] + s[1..][..n];
      n + 1
  }

  /** Whether the scanner sees a `0x` or `0X` prefix with a hex digit after it. */
  predicate HasHexPrefix(s: string) {
    |s| >= 3 && s[0] == '0' && (s[1] == 'x' || s[1] == 'X') && IsHexDigit(s[2])
  }

  /**
   * `Scanner.scanHexInt64`: the value of the leading run of hex digits,
   * after an optional `0x` prefix; 0 when there is none.
   */
  function ScanHex(s: string): (v: nat)
    ensures v < Pow16(|s|)
  {
    var body := if HasHexPrefix(s) then s[2..] else s;
    var n := HexRun(body);
    HexValueBound(body[..n]);
    Pow16Monotone(n, |s|);
    HexValue(body[..n])
  }

  lemma {:induction false} HexValueBound(s: string)
    requires AllHex(s)
    ensures HexValue(s) < Pow16(|s|)
  {
    if s != [] {
      HexValueBound(s[..|s| - 1]);
    }
  }

  lemma {:induction false} Pow16Monotone(m: nat, n: nat)
    requires m <= n
    ensures Pow16(m) <= Pow16(n)
  {
    if m < n {
      Pow16Monotone(m, n - 1);
    }
  }

  /**
   * `Color(hex:)` up to the integer channels: three digits are RGB with each
   * nibble times 17, six are RGB, eight are ARGB, and any other length is
   * opaque black.
   */
  function ParseHexColor(hex: string): (c: Argb)
    ensures 0 <= c.a <= 255 && 0 <= c.r <= 255 && 0 <= c.g <= 255 && 0 <= c.b <= 255
    ensures |Trimmed(hex)| !in {3, 6, 8} ==> c == Argb(255, 0, 0, 0)
  {
    var h := Trimmed(hex);
    var n := ScanHex(h);
    if |h| == 3 then
      assert n < 4096;
      Argb(255, (n / 256) * 17, ((n / 16) % 16) * 17, (n % 16) * 17)
    else if |h| == 6 then
      assert n < 0x100_0000;
      Argb(255, n / 0x1_0000, (n / 256) % 256, n % 256)
    else if |h| == 8 then
      assert n < 0x1_0000_0000;
      Argb(n / 0x100_0000, (n / 0x1_0000) % 256, (n / 256) % 256, n % 256)
    else
      Argb(255, 0, 0, 0)
  }

  /** An upper-case hex digit. */
  function HexChar(v: nat): (c: char)
    requires v < 16
    ensures IsHexDigit(c) && DigitValue(c) == v
  {
    if v < 10 then ('0' as int + v) as char else ('A' as int + v - 10) as char
  }

  /** A byte as two hex digits. */
  function Hex2(v: nat): (s: string)
    requires v < 256
    ensures |s| == 2 && AllHex(s) && HexValue(s) == v
  {
    var s := [HexChar(v / 16), HexChar(v % 16)];
    assert s[..1] == [HexChar(v / 16)] && s[..1][..0] == [];
    assert HexValue(s[..1]) == v / 16;
    assert HexValue(s) == 16 * (v / 16) + v % 16;
    s
  }

  /** Appending digits shifts the value left by four bits per digit. */
  lemma {:induction false} HexValueAppend(s: string, t: string)
    requires AllHex(s) && AllHex(t)
    ensures AllHex(s + t)
    ensures HexValue(s + t) == HexValue(s) * Pow16(|t|) + HexValue(t)
  {
    if t == [] {
      assert s + t == s;
    } else {
      var t' := t[..|t| - 1];
      var d := DigitValue(t[|t| - 1]);
      HexValueAppend(s, t');
      var a, p, v := HexValue(s), Pow16(|t'|), HexValue(t');
      assert (s + t)[..|s + t| - 1] == s + t';
      assert (s + t)[|s + t| - 1] == t[|t| - 1];
      assert HexValue(s + t) == 16 * (a * p + v) + d;
      assert HexValue(t) == 16 * v + d;
      assert Pow16(|t|) == 16 * p;
      MulShift(a, p);
    }
  }

  lemma MulShift(a: int, p: int)
    ensures 16 * (a * p) == a * (16 * p)
  {
  }

  /** A string of hex digits scans to its own value: `x` is not a hex digit, so there is no `0x` prefix. */
  lemma ScanDigits(digits: string)
    requires AllHex(digits)
    ensures ScanHex(digits) == HexValue(digits)
  {
    assert !HasHexPrefix(digits) by {
      assert !IsHexDigit('x') && !IsHexDigit('X');
    }
    assert HexRun(digits) == |digits|;
    assert digits[..|digits|] == digits;
  }

  /** The three channels packed as `0xRRGGBB` come back out of the shifts and masks. */
  lemma UnpackRgb(r: nat, g: nat, b: nat)
    requires r < 256 && g < 256 && b < 256
    ensures var n := r * 0x1_0000 + g * 256 + b;
            n / 0x1_0000 == r && (n / 256) % 256 == g && n % 256 == b
  {
  }

  /** The four channels packed as `0xAARRGGBB` come back out of the shifts and masks. */
  lemma UnpackArgb(a: nat, r: nat, g: nat, b: nat)
    requires a < 256 && r < 256 && g < 256 && b < 256
    ensures var n := a * 0x100_0000 + r * 0x1_0000 + g * 256 + b;
            n / 0x100_0000 == a && (n / 0x1_0000) % 256 == r && (n / 256) % 256 == g && n % 256 == b
  {
    var low := r * 0x1_0000 + g * 256 + b;
    var n := a * 0x100_0000 + low;
    UnpackRgb(r, g, b);
    assert 0 <= low < 0x100_0000;
    assert n / 0x100_0000 == a;
    assert n / 0x1_0000 == a * 256 + low / 0x1_0000;
    assert n / 256 == a * 0x1_0000 + low / 256;
    assert n % 256 == low % 256;
  }

  /** The nibbles packed as `0xRGB` come back out of the shifts and masks. */
  lemma UnpackShort(r: nat, g: nat, b: nat)
    requires r < 16 && g < 16 && b < 16
    ensures var n := r * 256 + g * 16 + b;
            n / 256 == r && (n / 16) % 16 == g && n % 16 == b
  {
    var low := g * 16 + b;
    var n := r * 256 + low;
    assert 0 <= low < 256;
    assert n / 256 == r;
    assert n / 16 == r * 16 + g;
    assert (r * 16 + g) % 16 == g;
    assert n % 16 == b;
  }

  /** Hex digits have nothing to trim: `"FF6B9D"` reads as itself. */
  lemma TrimmedBare(digits: string)
    requires AllHex(digits) && digits != []
    ensures Trimmed(digits) == digits
  {
    assert IsHexDigit(digits[0]) && IsHexDigit(digits[|digits| - 1]);
  }

  /** A string that trims to hex digits reads as the value of the digits, split by length. */
  lemma ParseTrimmedDigits(s: string, digits: string)
    requires AllHex(digits) && digits != [] && Trimmed(s) == digits
    ensures var c, n := ParseHexColor(s), HexValue(digits);
            && (|digits| == 3 ==> c == Argb(255, (n / 256) * 17, ((n / 16) % 16) * 17, (n % 16) * 17))
            && (|digits| == 6 ==> c == Argb(255, n / 0x1_0000, (n / 256) % 256, n % 256))
            && (|digits| == 8 ==> c == Argb(n / 0x100_0000, (n / 0x1_0000) % 256, (n / 256) % 256, n % 256))
  {
    ScanDigits(digits);
  }

  /** Bare hex digits, the form every `Color(hex:)` call in the app passes, read as their value split by length. */
  lemma ParseBareDigits(digits: string)
    requires AllHex(digits) && digits != []
    ensures var c, n := ParseHexColor(digits), HexValue(digits);
            && (|digits| == 3 ==> c == Argb(255, (n / 256) * 17, ((n / 16) % 16) * 17, (n % 16) * 17))
            && (|digits| == 6 ==> c == Argb(255, n / 0x1_0000, (n / 256) % 256, n % 256))
            && (|digits| == 8 ==> c == Argb(n / 0x100_0000, (n / 0x1_0000) % 256, (n / 256) % 256, n % 256))
  {
    TrimmedBare(digits);
    ParseTrimmedDigits(digits, digits);
  }

  /** `"#"` followed by hex digits reads the same as the digits alone. */
  lemma ParseHashDigits(digits: string)
    requires AllHex(digits) && digits != []
    ensures var c, n := ParseHexColor("#" + digits), HexValue(digits);
            && (|digits| == 3 ==> c == Argb(255, (n / 256) * 17, ((n / 16) % 16) * 17, (n % 16) * 17))
            && (|digits| == 6 ==> c == Argb(255, n / 0x1_0000, (n / 256) % 256, n % 256))
            && (|digits| == 8 ==> c == Argb(n / 0x100_0000, (n / 0x1_0000) % 256, (n / 256) % 256, n % 256))
  {
    TrimmedHash(digits);
    ParseTrimmedDigits("#" + digits, digits);
  }

  /** Six digits spelling `0xRRGGBB`, bare or after junk that trims away, parse as that opaque colour. */
  lemma ParseRgbDigits(s: string, d: string, r: nat, g: nat, b: nat)
    requires AllHex(d) && |d| == 6 && Trimmed(s) == d && r < 256 && g < 256 && b < 256
    requires HexValue(d) == r * 0x1_0000 + g * 256 + b
    ensures ParseHexColor(s) == Argb(255, r, g, b)
  {
    var n := HexValue(d);
    UnpackRgb(r, g, b);
    assert n / 0x1_0000 == r && (n / 256) % 256 == g && n % 256 == b;
    ParseTrimmedDigits(s, d);
  }

  /** Eight digits spelling `0xAARRGGBB` parse as that colour. */
  lemma ParseArgbDigits(s: string, d: string, a: nat, r: nat, g: nat, b: nat)
    requires AllHex(d) && |d| == 8 && Trimmed(s) == d && a < 256 && r < 256 && g < 256 && b < 256
    requires HexValue(d) == a * 0x100_0000 + r * 0x1_0000 + g * 256 + b
    ensures ParseHexColor(s) == Argb(a, r, g, b)
  {
    var n := HexValue(d);
    UnpackArgb(a, r, g, b);
    assert n / 0x100_0000 == a && (n / 0x1_0000) % 256 == r && (n / 256) % 256 == g && n % 256 == b;
    ParseTrimmedDigits(s, d);
  }

  /** Three digits spelling `0xRGB` parse as the colour with each nibble times 17. */
  lemma ParseNibbles(s: string, d: string, r: nat, g: nat, b: nat)
    requires AllHex(d) && |d| == 3 && Trimmed(s) == d && r < 16 && g < 16 && b < 16
    requires HexValue(d) == r * 256 + g * 16 + b
    ensures ParseHexColor(s) == Argb(255, r * 17, g * 17, b * 17)
  {
    var n := HexValue(d);
    UnpackShort(r, g, b);
    assert n / 256 == r && (n / 16) % 16 == g && n % 16 == b;
    ParseTrimmedDigits(s, d);
  }

  lemma Regroup(x: string, y: string, z: string)
    ensures x + (y + z) == (x + y) + z
  {
  }

  /** Appending a byte's two digits shifts the value left by one byte. */
  lemma AppendByte(s: string, v: nat)
    requires AllHex(s) && v < 256
    ensures AllHex(s + Hex2(v)) && |s + Hex2(v)| == |s| + 2
    ensures HexValue(s + Hex2(v)) == HexValue(s) * 256 + v
  {
    HexValueAppend(s, Hex2(v));
    assert Pow16(2) == 256;
  }

  /**
   * `RRGGBB`, the form of every colour string the app passes, reads back as
   * the opaque colour it spells, and so does `#RRGGBB`.
   */
  lemma RgbRoundTrip(r: nat, g: nat, b: nat)
    requires r < 256 && g < 256 && b < 256
    ensures ParseHexColor(Hex2(r) + Hex2(g) + Hex2(b)) == Argb(255, r, g, b)
    ensures ParseHexColor("#" + Hex2(r) + Hex2(g) + Hex2(b)) == Argb(255, r, g, b)
  {
    var d2 := Hex2(r) + Hex2(g);
    var d3 := d2 + Hex2(b);
    AppendByte(Hex2(r), g);
    AppendByte(d2, b);
    TrimmedBare(d3);
    ParseRgbDigits(d3, d3, r, g, b);
    TrimmedHash(d3);
    ParseRgbDigits("#" + d3, d3, r, g, b);
    Regroup("#", Hex2(r), Hex2(g));
    Regroup("#", d2, Hex2(b));
  }

  /** `AARRGGBB` and `#AARRGGBB` read back as the colour they spell, alpha first. */
  lemma ArgbRoundTrip(a: nat, r: nat, g: nat, b: nat)
    requires a < 256 && r < 256 && g < 256 && b < 256
    ensures ParseHexColor(Hex2(a) + Hex2(r) + Hex2(g) + Hex2(b)) == Argb(a, r, g, b)
    ensures ParseHexColor("#" + Hex2(a) + Hex2(r) + Hex2(g) + Hex2(b)) == Argb(a, r, g, b)
  {
    var d2 := Hex2(a) + Hex2(r);
    var d3 := d2 + Hex2(g);
    var d4 := d3 + Hex2(b);
    AppendByte(Hex2(a), r);
    AppendByte(d2, g);
    AppendByte(d3, b);
    TrimmedBare(d4);
    ParseArgbDigits(d4, d4, a, r, g, b);
    TrimmedHash(d4);
    ParseArgbDigits("#" + d4, d4, a, r, g, b);
    Regroup("#", Hex2(a), Hex2(r));
    Regroup("#", d2, Hex2(g));
    Regroup("#", d3, Hex2(b));
  }

  /** The app's teal, `Color(hex: "4ECDC4")`, is the opaque colour (0x4E, 0xCD, 0xC4). */
  lemma TealReadsBack()
    ensures ParseHexColor("4ECDC4") == Argb(255, 0x4E, 0xCD, 0xC4)
  {
    assert Hex2(0x4E) == "4E" && Hex2(0xCD) == "CD" && Hex2(0xC4) == "C4";
    assert "4E" + "CD" + "C4" == "4ECDC4";
    RgbRoundTrip(0x4E, 0xCD, 0xC4);
  }

  /** Appending one digit shifts the value left by one nibble. */
  lemma AppendDigit(s: string, v: nat)
    requires AllHex(s) && v < 16
    ensures AllHex(s + [HexChar(v)]) && |s + [HexChar(v)]| == |s| + 1
    ensures HexValue(s + [HexChar(v)]) == HexValue(s) * 16 + v
  {
    assert (s + [HexChar(v)])[..|s|] == s;
  }

  /** `RGB` and `#RGB` are the colour with each channel's nibble repeated, i.e. times 17. */
  lemma ShortRoundTrip(r: nat, g: nat, b: nat)
    requires r < 16 && g < 16 && b < 16
    ensures ParseHexColor([HexChar(r), HexChar(g), HexChar(b)]) == Argb(255, r * 17, g * 17, b * 17)
    ensures ParseHexColor("#" + [HexChar(r), HexChar(g), HexChar(b)]) == Argb(255, r * 17, g * 17, b * 17)
  {
    var d1 := [HexChar(r)];
    AppendDigit([], r);
    assert [] + [HexChar(r)] == d1;
    var d2 := d1 + [HexChar(g)];
    AppendDigit(d1, g);
    var d3 := d2 + [HexChar(b)];
    AppendDigit(d2, b);
    assert d3 == [HexChar(r), HexChar(g), HexChar(b)];
    TrimmedBare(d3);
    ParseNibbles(d3, d3, r, g, b);
    TrimmedHash(d3);
    ParseNibbles("#" + d3, d3, r, g, b);
  }
}
