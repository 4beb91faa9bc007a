/** Bytes, lowercase hex encoding (Node's `toString('hex')`/`digest('hex')`)
    and the UTF-8 encoding `Buffer.from(string)` performs. The cryptographic
    primitives themselves are not modelled: a SHA-256 or HMAC-SHA256 digest is
    any value of `Sha256Hex`, and `randomBytes(32)` is any value of `Bytes32`. */
module Hex {
  import opened Text

  type Byte = b: int | 0 <= b < 256

  /** What `randomBytes(32)` yields. */
  type Bytes32 = s: seq<Byte> | |s| == 32
    witness seq(32, _ => 0)

  /** What `createHash('sha256')…digest('hex')` and
      `createHmac('sha256', k)…digest('hex')` yield: 64 lowercase hex digits. */
  type Sha256Hex = s: string | |s| == 64 && AllLowerHex(s)
    witness HexEncode(seq(32, _ => 0))

  function NibbleChar(n: nat): (c: char)
    requires n < 16
    ensures IsLowerHexDigit(c)
  {
    if n < 10 then DigitChar(n) else ('a' as int + n - 10) as char
  }

  function NibbleValue(c: char): (n: nat)
    requires IsLowerHexDigit(c)
    ensures n < 16
  {
    if IsDigit(c) then DigitValue(c) else c as int - 'a' as int + 10
  }

  /** `Buffer.toString('hex')`: two lowercase hex digits per byte, high nibble first. */
  function HexEncode(bytes: seq<Byte>): (r: string)
    ensures |r| == 2 * |bytes|
    ensures AllLowerHex(r)
  {
    if bytes == [] then []
    else [NibbleChar(bytes[0] / 16), NibbleChar(bytes[0] % 16)] + HexEncode(bytes[1..])
  }

  /** The inverse of `HexEncode` on its range. */
  function HexDecode(s: string): seq<Byte>
    requires |s| % 2 == 0 && AllLowerHex(s)
  {
    if s == [] then []
    else [NibbleValue(s[0]) * 16 + NibbleValue(s[1])] + HexDecode(s[2..])
  }

  /** Hex encoding loses nothing: decoding recovers the bytes. */
  lemma {:induction false} HexRoundTrip(bytes: seq<Byte>)
    ensures HexDecode(HexEncode(bytes)) == bytes
  {
    if bytes != [] {
      var r := HexEncode(bytes);
      assert r[2..] == HexEncode(bytes[1..]);
      HexRoundTrip(bytes[1..]);
    }
  }

  // ---------------------------------------------------------------------------
  // UTF-8, as `Buffer.from(s)` encodes a string
  // ---------------------------------------------------------------------------

  function Utf8Char(c: char): (r: seq<Byte>)
    ensures 1 <= |r| <= 4
    ensures (c as int < 0x80) == (|r| == 1)
    ensures c as int < 0x80 ==> r == [c as int]
    ensures c as int >= 0x80 ==> r[0] >= 0xC0
  {
    var v := c as int;
    if v < 0x80 then [v]
    else if v < 0x800 then [0xC0 + v / 64, 0x80 + v % 64]
    else if v < 0x10000 then [0xE0 + v / 4096, 0x80 + (v / 64) % 64, 0x80 + v % 64]
    else [0xF0 + v / 262144, 0x80 + (v / 4096) % 64, 0x80 + (v / 64) % 64, 0x80 + v % 64]
  }

  function Utf8(s: string): (r: seq<Byte>)
    ensures |r| >= |s|
  {
    if s == [] then [] else Utf8Char(s[0]) + Utf8(s[1..])
  }

  predicate IsAscii(s: string) { forall i :: 0 <= i < |s| ==> s[i] as int < 0x80 }

  /** An ASCII string encodes to one byte per character. */
  lemma {:induction false} Utf8OfAscii(s: string)
    requires IsAscii(s)
    ensures |Utf8(s)| == |s|
    ensures forall i :: 0 <= i < |s| ==> Utf8(s)[i] == s[i] as int
  {
    if s != [] {
      Utf8OfAscii(s[1..]);
    }
  }

  /** Only the string itself encodes to the same bytes as an ASCII string. */
  lemma {:induction false} Utf8MatchesAsciiOnlyItself(s: string, a: string)
    requires IsAscii(a)
    ensures Utf8(s) == Utf8(a) <==> s == a
  {
    if s != [] && a != [] {
      var hs := Utf8Char(s[0]);
      assert Utf8(s) == hs + Utf8(s[1..]);
      assert Utf8(a) == [a[0] as int] + Utf8(a[1..]);
      Utf8MatchesAsciiOnlyItself(s[1..], a[1..]);
      if Utf8(s) == Utf8(a) {
        assert Utf8(s)[0] == a[0] as int < 0x80;
        assert hs == [s[0] as int];
        assert Utf8(s[1..]) == Utf8(s)[1..] == Utf8(a)[1..] == Utf8(a[1..]);
      }
      if s == a {
        assert s[1..] == a[1..];
      }
    } else if s != [] {
      assert |Utf8(s)| > 0;
    } else if a != [] {
      assert |Utf8(a)| > 0;
    }
  }

  lemma LowerHexIsAscii(s: string)
    requires AllLowerHex(s)
    ensures IsAscii(s)
  {
  }
}
