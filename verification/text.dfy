/** Character classes and string helpers with the semantics of the JavaScript
    built-ins the application uses (`slice`, `toUpperCase`, template-literal
    number formatting, `String.length`, `split('.').pop()`). */
module Text {
  import opened Common

  predicate IsDigit(c: char) { '0' <= c <= '9' }
  predicate IsAsciiUpper(c: char) { 'A' <= c <= 'Z' }
  predicate IsAsciiLower(c: char) { 'a' <= c <= 'z' }
  predicate IsAsciiLetter(c: char) { IsAsciiUpper(c) || IsAsciiLower(c) }
  predicate IsAsciiAlnum(c: char) { IsAsciiLetter(c) || IsDigit(c) }

  /** `[A-F0-9]` */
  predicate IsUpperHexDigit(c: char) { IsDigit(c) || 'A' <= c <= 'F' }
  /** `[a-f0-9]`, the alphabet of Node's `digest('hex')` */
  predicate IsLowerHexDigit(c: char) { IsDigit(c) || 'a' <= c <= 'f' }
  /** `[0-9a-fA-F]` */
  predicate IsHexDigit(c: char) { IsUpperHexDigit(c) || IsLowerHexDigit(c) }

  predicate AllDigits(s: string) { forall i :: 0 <= i < |s| ==> IsDigit(s[i]) }
  predicate AllUpperHex(s: string) { forall i :: 0 <= i < |s| ==> IsUpperHexDigit(s[i]) }
  predicate AllLowerHex(s: string) { forall i :: 0 <= i < |s| ==> IsLowerHexDigit(s[i]) }
  predicate AllHex(s: string) { forall i :: 0 <= i < |s| ==> IsHexDigit(s[i]) }

  /** The white space `\s` matches in a JavaScript regular expression
      (WhiteSpace and LineTerminator of ECMA-262). */
  predicate IsJsWhitespace(c: char) {
    c == '\t' || c == '\n' || c == '\U{000B}' || c == '\U{000C}' || c == '\r' || c == ' '
    || c == '\U{00A0}' || c == '\U{1680}' || ('\U{2000}' <= c <= '\U{200A}')
    || c == '\U{2028}' || c == '\U{2029}' || c == '\U{202F}' || c == '\U{205F}'
    || c == '\U{3000}' || c == '\U{FEFF}'
  }

  /** `toUpperCase` restricted to ASCII letters. */
  function UpperChar(c: char): char {
    if IsAsciiLower(c) then (c as int - 32) as char else c
  }

  /** `toLowerCase` restricted to ASCII letters. */
  function LowerChar(c: char): char {
    if IsAsciiUpper(c) then (c as int + 32) as char else c
  }

  function Upper(s: string): (r: string)
    ensures |r| == |s|
    ensures forall i :: 0 <= i < |s| ==> r[i] == UpperChar(s[i])
  {
    if s == [] then [] else [UpperChar(s[0])] + Upper(s[1..])
  }

  function Lower(s: string): (r: string)
    ensures |r| == |s|
    ensures forall i :: 0 <= i < |s| ==> r[i] == LowerChar(s[i])
  {
    if s == [] then [] else [LowerChar(s[0])] + Lower(s[1..])
  }

  /** Upper-casing maps every hex digit, of either case, to `[A-F0-9]`, and
      nothing else lands there. */
  lemma UpperHexExactly(c: char)
    ensures IsUpperHexDigit(UpperChar(c)) <==> IsHexDigit(c)
  {
  }

  /** `s.slice(from, to)` for non-negative bounds: both bounds are clamped to
      the length, and a range that ends before it starts is empty. */
  function Slice(s: string, from: nat, to: nat): (r: string)
    ensures |r| == if to <= from || |s| <= from then 0 else (if to < |s| then to else |s|) - from
    ensures forall i :: 0 <= i < |r| ==> r[i] == s[from + i]
  {
    var lo := if from < |s| then from else |s|;
    var hi := if to < |s| then to else |s|;
    if hi <= lo then [] else s[lo..hi]
  }

  predicate StartsWith(s: string, prefix: string) {
    |prefix| <= |s| && s[..|prefix|] == prefix
  }

  predicate EndsWith(s: string, suffix: string) {
    |suffix| <= |s| && s[|s| - |suffix|..] == suffix
  }

  // ---------------------------------------------------------------------------
  // Decimal formatting of non-negative integers (`${n}` in a template literal)
  // ---------------------------------------------------------------------------

  function DigitChar(d: nat): (c: char)
    requires d < 10
    ensures IsDigit(c)
  {
    ('0' as int + d) as char
  }

  function DigitValue(c: char): (d: nat)
    requires IsDigit(c)
    ensures d < 10
  {
    c as int - '0' as int
  }

  /** The decimal representation of `n`, without sign or leading zeros. */
  function Decimal(n: nat): (r: string)
    ensures |r| > 0 && AllDigits(r)
    ensures n > 0 ==> r[0] != '0'
  {
    if n < 10 then [DigitChar(n)] else Decimal(n / 10) + [DigitChar(n % 10)]
  }

  /** The value of a string of decimal digits. */
  function DigitsValue(s: string): nat
    requires AllDigits(s)
  {
    if s == [] then 0 else DigitsValue(s[..|s| - 1]) * 10 + DigitValue(s[|s| - 1])
  }

  /** Formatting a number and reading it back gives the number. */
  lemma {:induction false} DecimalRoundTrip(n: nat)
    ensures DigitsValue(Decimal(n)) == n
  {
    var r := Decimal(n);
    if n >= 10 {
      DecimalRoundTrip(n / 10);
      assert r[..|r| - 1] == Decimal(n / 10);
    }
  }

  function Pow10(k: nat): (p: nat)
    ensures p >= 1
  {
    if k == 0 then 1 else 10 * Pow10(k - 1)
  }

  lemma {:induction false} Pow10Monotone(a: nat, b: nat)
    requires a <= b
    ensures Pow10(a) <= Pow10(b)
  {
    if a < b {
      Pow10Monotone(a, b - 1);
    }
  }

  /** A number has exactly `k + 1` digits when it lies in `[10^k, 10^(k+1))`;
      zero is the one-digit exception to the lower bound. */
  lemma {:induction false} DecimalLengthBounds(n: nat)
    ensures n < Pow10(|Decimal(n)|)
    ensures n > 0 ==> Pow10(|Decimal(n)| - 1) <= n
  {
    if n >= 10 {
      DecimalLengthBounds(n / 10);
    }
  }

  /** A number prints with exactly 13 digits iff it lies in [10^12, 10^13):
      the millisecond clock between September 2001 and November 2286. */
  lemma ThirteenDigits(n: nat)
    ensures |Decimal(n)| == 13 <==> 1_000_000_000_000 <= n < 10_000_000_000_000
  {
    var k := |Decimal(n)|;
    DecimalLengthBounds(n);
    assert Pow10(12) == 1_000_000_000_000 && Pow10(13) == 10_000_000_000_000;
    if 1_000_000_000_000 <= n < 10_000_000_000_000 {
      if k < 13 {
        Pow10Monotone(k, 12);
      } else if k > 13 {
        Pow10Monotone(13, k - 1);
      }
    }
  }

  // ---------------------------------------------------------------------------
  // Length as JavaScript counts it, and substring search
  // ---------------------------------------------------------------------------

  /** `s.length` in JavaScript: UTF-16 code units, two for a character
      outside the Basic Multilingual Plane. */
  function JsLength(s: string): (n: nat)
    ensures |s| <= n <= 2 * |s|
  {
    if s == [] then 0 else (if s[0] as int > 0xFFFF then 2 else 1) + JsLength(s[1..])
  }

  /** Index of the last occurrence of `c` in `s`, or -1. */
  function LastIndexOf(s: string, c: char): (i: int)
    ensures -1 <= i < |s|
    ensures i >= 0 ==> s[i] == c
    ensures forall j :: i < j < |s| ==> s[j] != c
  {
    if s == [] then -1
    else if s[|s| - 1] == c then |s| - 1
    else LastIndexOf(s[..|s| - 1], c)
  }

  /** `name.split('.').pop()`: the text after the last dot, or the whole name
      when it has none. */
  function Extension(name: string): (ext: string)
    ensures EndsWith(name, ext)
    ensures forall i :: 0 <= i < |ext| ==> ext[i] != '.'
    ensures |ext| < |name| ==> name[|name| - |ext| - 1] == '.'
  {
    var i := LastIndexOf(name, '.');
    assert name[i + 1..] == name[|name| - |name[i + 1..]|..];
    name[i + 1..]
  }
  // ---------------------------------------------------------------------------
  // parseInt(s) with no radix
  // ---------------------------------------------------------------------------

  /** Removes the leading white space `parseInt` skips. */
  function TrimStart(s: string): (r: string)
    ensures |r| <= |s| && r == s[|s| - |r|..]
    ensures r == [] || !IsJsWhitespace(r[0])
  {
    if s == [] || !IsJsWhitespace(s[0]) then s
    else
      var r := TrimStart(s[1..]);
      assert s[1..][|s| - 1 - |r|..] == s[|s| - |r|..];
      r
  }

  predicate IsRadixDigit(c: char, hex: bool) { if hex then IsHexDigit(c) else IsDigit(c) }

  /** The longest prefix of `s` made of digits of the radix. */
  function LeadingDigits(s: string, hex: bool): (r: string)
    ensures |r| <= |s| && r == s[..|r|]
    ensures forall i :: 0 <= i < |r| ==> IsRadixDigit(r[i], hex)
    ensures |r| < |s| ==> !IsRadixDigit(s[|r|], hex)
  {
    if s != [] && IsRadixDigit(s[0], hex) then [s[0]] + LeadingDigits(s[1..], hex) else []
  }

  function HexCharValue(c: char): (v: nat)
    requires IsHexDigit(c)
    ensures v < 16
  {
    if IsDigit(c) then DigitValue(c)
    else if 'a' <= c <= 'f' then c as int - 'a' as int + 10
    else c as int - 'A' as int + 10
  }

  function HexDigitsValue(s: string): nat
    requires forall i :: 0 <= i < |s| ==> IsHexDigit(s[i])
  {
    if s == [] then 0 else HexDigitsValue(s[..|s| - 1]) * 16 + HexCharValue(s[|s| - 1])
  }

  /** The unsigned part of `parseInt`: hexadecimal after a `0x`/`0X` prefix,
      decimal otherwise, up to the first character that is not a digit;
      `None` when no digit was read. */
  function ParseMagnitude(u: string): Option<nat> {
    var hex := |u| >= 2 && u[0] == '0' && (u[1] == 'x' || u[1] == 'X');
    var digits := LeadingDigits(if hex then u[2..] else u, hex);
    if digits == [] then None
    else Some(if hex then HexDigitsValue(digits) else DigitsValue(digits))
  }

  /** `parseInt(s)`: skips leading white space and reads an optional sign
      before the magnitude. `None` is `NaN`. */
  function ParseInt(s: string): Option<int> {
    var t := TrimStart(s);
    if t != [] && (t[0] == '-' || t[0] == '+') then
      match ParseMagnitude(t[1..])
      case None => None
      case Some(m) =>
        var v: int := if t[0] == '-' then 0 - m as int else m;
        Some(v)
    else
      match ParseMagnitude(t)
      case None => None
      case Some(m) => Some(m)
  }

  lemma {:induction false} LeadingDigitsOf(digits: string, rest: string, hex: bool)
    requires forall i :: 0 <= i < |digits| ==> IsRadixDigit(digits[i], hex)
    requires rest == [] || !IsRadixDigit(rest[0], hex)
    ensures LeadingDigits(digits + rest, hex) == digits
  {
    if digits == [] {
      assert digits + rest == rest;
    } else {
      assert (digits + rest)[0] == digits[0];
      assert (digits + rest)[1..] == digits[1..] + rest;
      LeadingDigitsOf(digits[1..], rest, hex);
    }
  }

  lemma ParseMagnitudeDecimal(n: nat, rest: string)
    requires rest == [] || !IsDigit(rest[0])
    requires n == 0 && rest != [] ==> rest[0] != 'x' && rest[0] != 'X'
    ensures ParseMagnitude(Decimal(n) + rest) == Some(n)
  {
    var d := Decimal(n);
    var s := d + rest;
    assert !(|s| >= 2 && s[0] == '0' && (s[1] == 'x' || s[1] == 'X')) by {
      if n == 0 {
        assert d == [DigitChar(0)];
        if |s| >= 2 { assert s[1] == rest[0]; }
      } else {
        assert s[0] == d[0];
      }
    }
    LeadingDigitsOf(d, rest, false);
    DecimalRoundTrip(n);
  }

  /** A number written in decimal, followed by anything that does not
      continue it, reads back as the number: `parseInt("15")` and
      `parseInt("15 years")` are 15. */
  lemma ParseIntDecimal(n: nat, rest: string)
    requires rest == [] || !IsDigit(rest[0])
    requires n == 0 && rest != [] ==> rest[0] != 'x' && rest[0] != 'X'
    ensures ParseInt(Decimal(n) + rest) == Some(n)
  {
    var s := Decimal(n) + rest;
    assert s[0] == Decimal(n)[0] && IsDigit(s[0]);
    assert !IsJsWhitespace(s[0]);
    assert TrimStart(s) == s;
    assert !(s[0] == '-' || s[0] == '+');
    ParseMagnitudeDecimal(n, rest);
  }
}
